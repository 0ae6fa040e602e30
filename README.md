# RDF: a verified model of the radial distribution function programs

The repository computes a radial distribution function (RDF) in three ways:

- `ideal_rdf.py` builds the theoretical RDF of a crystal lattice. It copies the basis atoms of a unit cell to the neighbouring cells, measures basis-to-basis and basis-to-image distances, sorts them, sweeps a cursor over the sorted list to fill the bins, and divides each count by the volume of the bin's shell.
- `calculate_rdf.py` computes the RDF of one snapshot of a trajectory. It keeps the pair distances below the cutoff, bins each one with `floor(d / binsize)`, and divides by shell volumes. It also reads a trajectory file into snapshots.
- `cpp/src/rdf.cpp` is the native version. It collects all pair distances, bins them with a truncating cast into per-thread histograms, merges those, and divides by shell volumes. `cpp/src/fileparser.cpp` and `cpp/src/fileparser.h` read the same file format into datasets.

The project models each of these in Dafny, in the form the source has. Loops that append, sweep, increment or divide in place are methods with loop invariants. Each method is proved against a specification function of its inputs, and the properties the programs rely on are proved as lemmas about those functions. The NumPy `rdf` matrix is an `array2<real>`. The C++ vectors are `array`s. The C++ `RDF` and `FileParser` objects are classes whose fields the methods update.

Modules, one per file:

- `Wrappers`: `Option` and `Result`.
- `Geometry`: vectors, the cell matrix, the norm as a parameter, ceiling, floor and truncation.
- `Counting`: a reference sort, interval counts and histogram sums.
- `Pairs`: the `i < j` pair enumeration shared by all three programs.
- `TextLines`: a file as a sequence of lines, and the block layout of a trajectory file.
- `LatticeImages` and `IdealRdf`: `ideal_rdf.py`.
- `SnapshotRdf` and `SnapshotReader`: `calculate_rdf.py`.
- `CppRdf`: `cpp/src/rdf.cpp`.
- `CppFileParser`: `cpp/src/fileparser.cpp` and `cpp/src/fileparser.h`.

Numbers are exact reals. The Euclidean norm is a parameter `norm`, assumed non-negative. π is a parameter greater than zero. Text-to-number conversion is a parameter too:

- `parseInt` and `parseFloat` stand for Python's `int` and `float`. They return `None` where Python raises `ValueError`.
- `parseCount` stands for `boost::lexical_cast<size_t>`.
- `parseFloats` stands for the `float_parser` grammar: the numbers it reads from a line.

The atom-line regular expression of `calculate_rdf.py` is modelled as a matcher of its own.

Where the project's written description and the code differ, the model follows the code:

- The lattice sweep does not count every distance. It counts only those below the upper edge `(nr_bins - 0.5) * binsize` of the last bin. It fails unless some distance reaches that edge. See `IdealRdf.SweepBins` and `IdealRdf.SweepCountsTelescope`.
- The snapshot and native programs do not use the shell `[(i - 0.5) b, (i + 0.5) b)`. The volume they divide bin `i` by is that of `[(i - 1) b, i b)`. See the findings.
- A count of zero ends the Python reader with no snapshot for that block. The native parser records an empty dataset and keeps reading. See `CppFileParser.ZeroCountReaders`.

## Model

| member | source | states |
|---|---|---|
| Geometry.Ceil | ideal_rdf.py:56 | the result is the least integer at or above `x`, and it is at least 1 for positive `x` |
| Geometry.Floor | calculate_rdf.py:109 | the result is the greatest integer at or below `x`, and it is non-negative for non-negative `x` |
| Geometry.TruncNonNeg | cpp/src/rdf.cpp:82 | the truncating cast of a non-negative value is the greatest integer at or below it |
| Geometry.TruncIsFloor | cpp/src/rdf.cpp:82 | on non-negative values, truncation and floor agree |
| Counting.Sort | ideal_rdf.py:87 | the sorted list is non-decreasing, a permutation of the input, and of the same length |
| Counting.Insert | ideal_rdf.py:87 | inserting into a sorted list keeps it sorted and adds exactly the one element |
| Counting.CountBelowSorted | ideal_rdf.py:100-102 | in a sorted list, the first index whose distance reaches `h` equals the number of distances below `h` |
| Counting.CountBelowSplit | ideal_rdf.py:96-102 | the distances below `hi` are those below `lo` plus those in `[lo, hi)` |
| Counting.CountBelowPermutation | ideal_rdf.py:87 | reordering the distances does not change how many lie below a bound |
| Counting.CountInPermutation | cpp/src/rdf.cpp:42-60 | reordering the distances does not change how many lie in an interval |
| Counting.CountInConcat | cpp/src/rdf.cpp:58-59 | the interval count of a concatenation is the sum of the parts' counts |
| Counting.SumBump | calculate_rdf.py:111 | one increment of one bin raises the total count by exactly one |
| Counting.SumAddCounts | cpp/src/rdf.cpp:87-90 | the total of a merged histogram is the sum of the totals of the parts |
| Counting.Bump | cpp/src/rdf.cpp:84 | an increment raises the chosen bin by one and leaves every other bin unchanged |
| Counting.AddCounts | cpp/src/rdf.cpp:88-90 | the merged histogram is the binwise sum of the two inputs |
| Pairs.RowFacts | calculate_rdf.py:92 | the inner loop visits `(i, j)` for exactly the `j` in `[lo, hi)`, in increasing order |
| Pairs.RowsMembers | calculate_rdf.py:90-92 | the first `i` rows hold exactly the pairs with first index below `i` and `first < second < n` |
| Pairs.RowsLength | calculate_rdf.py:90-92 | the first `i` rows hold `i(2n - i - 1)/2` pairs |
| Pairs.RowsOrdered | calculate_rdf.py:90-92 | the pairs come in strictly increasing lexicographic order |
| Pairs.UpperPairsFacts | calculate_rdf.py:90-95 | the double loop visits exactly the pairs `i < j < n`, each once and in order, `n(n - 1)/2` of them, never an atom with itself |
| TextLines.Advance | calculate_rdf.py:38 | reading `n` lines moves the position by `n`, or to the end of the file when fewer remain |
| TextLines.BlockLinesHead | calculate_rdf.py:55-61 | a block's lines are its count line, its comment line, then its atom lines, and the next block follows them |
| LatticeImages.ImageTagsMembers | ideal_rdf.py:61-68 | the expansion has an entry for offset `(p, q, r)` and atom `i` exactly when the offset lies in `[-dp, dp) x [-dq, dq) x [-dr, dr)`, is not `(0, 0, 0)`, and `i < nr_atoms` |
| LatticeImages.ImageTagsLength | ideal_rdf.py:62-70 | the expansion has `nr_atoms * ((2dp)(2dq)(2dr) - 1)` rows for positive bounds, and none otherwise |
| LatticeImages.ImageTagsOrdered | ideal_rdf.py:62-70 | the rows come ordered by `p`, then `q`, then `r`, then atom index, with no entry repeated |
| LatticeImages.ExpandedRows | ideal_rdf.py:67-70 | row `k` of the expansion is basis atom `i` shifted by its loop offset, and that offset is never the origin cell |
| LatticeImages.AtomImagesMembers | ideal_rdf.py:69-70 | the innermost loop adds every basis atom at one offset, in index order |
| LatticeImages.RSpanMembers | ideal_rdf.py:66-68 | the `r` loop covers `[lo, hi)` and skips the origin cell |
| LatticeImages.QSpanMembers | ideal_rdf.py:64-68 | the `q` loop covers `[lo, hi)`, each with the full `r` loop |
| LatticeImages.PSpanMembers | ideal_rdf.py:62-68 | the `p` loop covers `[lo, hi)`, each with the full `q` loop |
| LatticeImages.AppendAtomImages | ideal_rdf.py:69-70 | the innermost loop appends exactly the shifted basis atoms of one offset |
| LatticeImages.AppendOffset | ideal_rdf.py:67-70 | one offset appends nothing for the origin cell and all shifted basis atoms otherwise |
| LatticeImages.AppendRLoop | ideal_rdf.py:66-70 | the `r` loop appends the rows of `RSpan` over `[-dr, dr)` |
| LatticeImages.AppendQLoop | ideal_rdf.py:64-70 | the `q` loop appends the rows of `QSpan` over `[-dq, dq)` |
| LatticeImages.ExpandCell | ideal_rdf.py:60-70 | the expanded matrix is the shifted basis, one row per entry of `ImageTags`, in loop order |
| IdealRdf.LatticeTagsMembers | ideal_rdf.py:75-84 | the distances measured are exactly basis pairs `i < j` and every basis atom against every image |
| IdealRdf.LatticeTagsLength | ideal_rdf.py:75-84 | after `k` outer iterations the list holds `k(2n - k - 1)/2 + k * m` distances |
| IdealRdf.LatticeDistanceCount | ideal_rdf.py:75-84 | the distance list has `n(n - 1)/2 + n * m` entries for `n` basis atoms and `m` images |
| IdealRdf.BasisRowHas | ideal_rdf.py:77-80 | the first inner loop for atom `i` visits exactly the basis partners `j` with `i < j < n` |
| IdealRdf.ImageRowHas | ideal_rdf.py:81-84 | the second inner loop for atom `i` visits exactly the image rows `j < m` |
| IdealRdf.AppendBasisDistances | ideal_rdf.py:77-80 | the first inner loop appends the distances from atom `i` to every basis atom `j > i`, in order |
| IdealRdf.AppendImageDistances | ideal_rdf.py:81-84 | the second inner loop appends the distances from atom `i` to every image, in order |
| IdealRdf.LatticeDistances | ideal_rdf.py:74-84 | the whole distance loop yields the measured distances of `LatticeTags`, in loop order |
| IdealRdf.SortKeepsReach | ideal_rdf.py:87 | sorting does not change whether some distance reaches a given edge |
| Geometry.BinCount | ideal_rdf.py:56 | `nr_bins` is the ceiling of `cutoff / binsize` (also calculate_rdf.py:82): the bins reach the cutoff and no whole bin lies beyond it |
| IdealRdf.SweepVolume | ideal_rdf.py:96-98 | the shell volume of bin `i` is `4/3 pi b^3 (3i^2 + 1/4)`, positive for every `i` |
| IdealRdf.SweepCountsTelescope | ideal_rdf.py:93-102 | the counts of the first `k` bins add up to the number of distances below `(k - 0.5) b`, which is where the cursor stands |
| IdealRdf.SweepOneBin | ideal_rdf.py:100-102 | the inner `while` moves the cursor forward to the number of distances below `r2` and adds exactly that many to bin `i` |
| IdealRdf.SweepBins | ideal_rdf.py:93-102 | the sweep stays in range exactly when some distance reaches `(nr_bins - 0.5) b`; then bin `i` holds `i b` as its radius, its shell volume, and the number of distances in `[(i - 0.5) b, (i + 0.5) b)`, or below `0.5 b` for bin 0 |
| IdealRdf.DivideByVolume | ideal_rdf.py:105-106 | each count is divided by its own bin's volume; rows 0 and 2 stay as they are |
| IdealRdf.CalculateIdealRdf | ideal_rdf.py:40-108 | the matrix has 3 rows and `nr_bins` columns; the run fails exactly when no lattice distance reaches the last bin's upper edge; otherwise bin `i` holds the sweep count of the unsorted lattice distances over its positive shell volume |
| IdealRdf.SweepCountPermutation | ideal_rdf.py:86 | a bin's sweep count does not depend on the order of the distances, so sorting them changes no count |
| SnapshotRdf.KeptMembers | calculate_rdf.py:90-95 | a pair distance is kept exactly when it is below the cutoff, and every kept value is a pair distance |
| SnapshotRdf.KeptBounds | calculate_rdf.py:93-95 | at most one distance per pair is kept, and every kept distance is non-negative and below the cutoff |
| SnapshotRdf.KeptConcat | calculate_rdf.py:90-95 | filtering pair lists one after the other gives the concatenated result |
| SnapshotRdf.AppendKept | calculate_rdf.py:92-95 | the inner loop appends the kept distances of row `i`, in order |
| SnapshotRdf.PairDistances | calculate_rdf.py:89-96 | the distance list is the kept distances of all pairs `i < j`, in loop order |
| SnapshotRdf.FloorBin | calculate_rdf.py:109 | `floor(d / b) == i` exactly when `d` lies in `[i b, (i + 1) b)` |
| SnapshotRdf.BinnableBelow | calculate_rdf.py:105-111 | a distance in `[0, nr_bins * b)` has a bin index in range |
| SnapshotRdf.SnapshotDistancesBinnable | calculate_rdf.py:94-111 | every kept distance gets a bin index in `[0, nr_bins)`, and the `> cutoff` test never fires |
| SnapshotRdf.FloorHistogramCounts | calculate_rdf.py:102-111 | bin `i` counts exactly the distances in `[i b, (i + 1) b)` |
| SnapshotRdf.FloorHistogramSum | calculate_rdf.py:102-111 | the counts add up to the number of distances: each distance increments exactly one bin |
| SnapshotRdf.BinByFloor | calculate_rdf.py:102-111 | the binning loop leaves row 1 equal to the floor histogram, with rows 0 and 2 unchanged |
| SnapshotRdf.ShellVolume | calculate_rdf.py:113-116 | the volume of bin `i` is `4/3 pi b^3 (3i^2 - 3i + 1)`, positive for every `i` including 0 |
| SnapshotRdf.FillVolumes | calculate_rdf.py:113-116 | the volume loop sets row 2 to `ShellVolume` and changes no other row |
| SnapshotRdf.Normalise | calculate_rdf.py:119-121 | row 0 becomes the bin centre `(i + 0.5) b`, and row 1 is divided by the volume |
| SnapshotRdf.CalculateRdf | calculate_rdf.py:68-125 | the matrix has `nr_bins` columns holding the bin centre, the shell volume, and the count of kept distances in `[i b, (i + 1) b)` over that volume, which is never negative |
| SnapshotRdf.ShellVolumeLagsBin | calculate_rdf.py:113-116 | the volume used for bin `i + 1` is the volume of the shell bin `i` counts |
| SnapshotRdf.ShellVolumeMismatch | calculate_rdf.py:113-116 | with `b = 1`, bin 1 is divided by `4/3 pi` while the shell it counts has volume `28/3 pi` |
| SnapshotRdf.BinVolume | calculate_rdf.py:109-116 | the volume of the shell `[i b, (i + 1) b)` is `4/3 pi b^3 (3i^2 + 3i + 1)`, positive |
| SnapshotRdf.BinVolumesTile | calculate_rdf.py:109-116 | the volumes of the first `k` counted shells add up to the volume of the ball of radius `k b` |
| SnapshotReader.RunFacts | calculate_rdf.py:39 | a greedy run accepts every character it covers and stops at the first rejected one |
| SnapshotReader.MatchAtomLineOf | calculate_rdf.py:39 | a line made of a digit index, three numeric fields and a tail that ends the last field matches, with those four groups |
| SnapshotReader.MatchAtomLineSound | calculate_rdf.py:39 | every match has well-formed groups, and the line is those groups separated by single spaces followed by such a tail |
| SnapshotReader.SignRejected | calculate_rdf.py:39 | a line starting with a sign does not match |
| SnapshotReader.SignedCoordinateRejected | calculate_rdf.py:39 | a negative coordinate does not match, because `[\d.]+` has no sign |
| SnapshotReader.ParseAtomLineOf | calculate_rdf.py:39-42 | the position of a matching line is `float` of groups 2 to 4, and a group `float` rejects makes the line an error |
| SnapshotReader.EmptyLineRejected | calculate_rdf.py:38-40 | the empty string returned at the end of the file does not match, so `m.group` fails |
| SnapshotReader.Prepend | calculate_rdf.py:60 | earlier snapshots are put before a successful rest, and an error is passed on unchanged |
| SnapshotReader.Grab | calculate_rdf.py:37-44 | a successful `grab_atoms` yields exactly `nr_atoms` positions |
| SnapshotReader.GrabStopsAtBadLine | calculate_rdf.py:37-42 | the first atom line that fails to parse is the error reported, with its line index |
| SnapshotReader.GrabAtoms | calculate_rdf.py:27-44 | the reading loop gives `Grab`'s result and, on success, has consumed exactly `nr_atoms` lines |
| SnapshotReader.ReadAtomSetFromFile | calculate_rdf.py:46-66 | the reading loop gives `ReadAtomSet`'s result: snapshots until a count of zero or less or the end of the file, or the first error |
| SnapshotReader.ReadLayout | calculate_rdf.py:54-66 | a file of blocks with positive counts and valid atom lines, ended by the end of the file or by a count of zero or less, reads as one snapshot per block, in order |
| SnapshotReader.SnapshotsShape | calculate_rdf.py:56-60 | the snapshot count equals the block count; snapshot `k` is the positions of block `k`'s atom lines in order, as many as its count line says |
| SnapshotReader.GrabLines | calculate_rdf.py:37-44 | reading a block's atom lines yields those lines' positions |
| SnapshotReader.BlocksStop | calculate_rdf.py:61-65 | after a block, an empty line (end of file) or a count of zero or less ends the reading with that block last |
| SnapshotReader.BlocksContinue | calculate_rdf.py:57-63 | after a block, a positive count starts the next block |
| SnapshotReader.BlocksLayout | calculate_rdf.py:57-65 | the loop reads a sequence of blocks as their snapshots |
| CppRdf.TruncBinCount | cpp/src/rdf.cpp:23 | `nr_bins` is the truncation of `cutoff / binsize`, so the last bin may end below the cutoff |
| CppRdf.Rdf.constructor | cpp/src/rdf.cpp:19-24 | the object keeps the cutoff and bin size, and its bin count is the truncation |
| CppRdf.AllDistancesFacts | cpp/src/rdf.cpp:46-56 | there are `n(n - 1)/2` distances, each the distance of a pair `i < j` |
| CppRdf.AllDistancesNonNeg | cpp/src/rdf.cpp:52 | every distance is non-negative |
| CppRdf.AppendLengths | cpp/src/rdf.cpp:47-55 | the inner loop appends the distances of row `i`, in order |
| CppRdf.CollectDistances | cpp/src/rdf.cpp:42-60 | the pair loop yields the distance of every pair `i < j`, with no cutoff filter |
| CppRdf.InRangeIff | cpp/src/rdf.cpp:78-84 | a distance is binned in range exactly when it does not lie in `[nr_bins * b, cutoff]` |
| CppRdf.AllInRangeIff | cpp/src/rdf.cpp:76-85 | the loop stays in range exactly when no distance lies in `[nr_bins * b, cutoff]` |
| CppRdf.TruncHistogram | cpp/src/rdf.cpp:76-85 | the histogram has `nr_bins` bins, and a distance past the last bin is not counted |
| CppRdf.TruncHistogramCounts | cpp/src/rdf.cpp:78-84 | when the bins end within the cutoff, bin `i` counts exactly the distances in `[i b, (i + 1) b)` |
| CppRdf.TruncHistogramBands | cpp/src/rdf.cpp:78-84 | the same, for every bin at once |
| CppRdf.TruncHistogramSum | cpp/src/rdf.cpp:68-91 | when every distance is in range, the counts add up to the number of distances at most the cutoff |
| CppRdf.TruncHistogramConcat | cpp/src/rdf.cpp:87-90 | the histogram of two chunks is the binwise sum of their histograms |
| CppRdf.TruncHistogramSplit | cpp/src/rdf.cpp:74-90 | adding a chunk's private histogram to the histogram of the earlier distances gives the histogram of both |
| CppRdf.TruncHistogramPermutation | cpp/src/rdf.cpp:72-91 | the histogram does not depend on the order the threads left the distances in |
| CppRdf.Merge | cpp/src/rdf.cpp:87-90 | the merge adds a private histogram into the shared counts, bin by bin |
| CppRdf.Rdf.BinChunk | cpp/src/rdf.cpp:74-85 | one thread's loop stays in range exactly when none of its distances lies in `[nr_bins * b, cutoff]`; then its private histogram is that chunk's histogram |
| CppRdf.Rdf.BinAndMerge | cpp/src/rdf.cpp:74-90 | one thread bins its chunk and merges it; the shared counts then cover every distance so far |
| CppRdf.Rdf.BinDistances | cpp/src/rdf.cpp:68-91 | chunked private binning plus merging equals one sequential pass, and succeeds exactly when every distance is in range |
| CppRdf.UnsignedPred | cpp/src/rdf.cpp:95 | `i - 1` on `size_t` is `i - 1` from 1 on and wraps to `SIZE_MAX` at 0 |
| CppRdf.WrappedShellVolume | cpp/src/rdf.cpp:95-97 | from bin 1 on, the volume is `ShellVolume` and positive; at bin 0 it is negative |
| CppRdf.Rdf.Normalise | cpp/src/rdf.cpp:94-99 | each count is divided by the volume the source computes for its bin |
| CppRdf.Rdf.Histogram | cpp/src/rdf.cpp:68-99 | binning succeeds exactly when no distance lies in `[nr_bins * b, cutoff]`; then each bin holds its histogram count over its volume |
| CppRdf.Rdf.ConstructRdf | cpp/src/rdf.cpp:32-99 | the same for the dataset's pair distances: in range exactly when no pair distance lies in `[nr_bins * b, cutoff]`, and then bin `i` holds its count over its volume |
| Geometry.BinCentre | cpp/src/rdf.cpp:106 | the reported radius `(i + 0.5) b` lies strictly inside bin `i` |
| CppRdf.IndexPastEnd | cpp/src/rdf.cpp:78-84 | with cutoff 1 and bin size 0.5 there are 2 bins, and a distance of exactly 1 is binned at index 2, past the end |
| CppFileParser.AtomRow | cpp/src/fileparser.cpp:77-79 | an atom's position is numbers 1, 2 and 3 of its line; number 0, the index, is dropped |
| CppFileParser.AtomRows | cpp/src/fileparser.cpp:63-79 | a block of `n` atom lines gives `n` positions, the `k`th from line `k` |
| CppFileParser.AtomStart | cpp/src/fileparser.cpp:41 | the atom lines start after the one discarded line |
| CppFileParser.FileParser.constructor | cpp/src/fileparser.cpp:18-21 | the parser reads the whole file and holds one dataset per block |
| CppFileParser.FileParser.GetLine | cpp/src/fileparser.cpp:33 | `getline` succeeds exactly when a line remains; it returns that line and moves past it |
| CppFileParser.FileParser.ReadFile | cpp/src/fileparser.cpp:26-45 | the loop appends the datasets of every block up to the end of the file, and nothing else |
| CppFileParser.FileParser.ReadBlock | cpp/src/fileparser.cpp:36-43 | one iteration appends one dataset sized by the count line, discards one line, and reads that many atom lines |
| CppFileParser.FileParser.ReadAtoms | cpp/src/fileparser.cpp:53-81 | `read_atoms` consumes exactly `nr_lines` lines and rewrites only the last dataset, with one position per line |
| CppFileParser.FileParser.GetDataset | cpp/src/fileparser.h:42-52 | an index in `[0, size)` gives that dataset, a negative one the last, and any other ends the program with status -1 |
| CppFileParser.FileParser.NegativeIndexIsLast | cpp/src/fileparser.h:43-45 | every negative index selects the last dataset |
| CppFileParser.CppSnapshots | cpp/src/fileparser.cpp:33-44 | one dataset per block, each holding that block's positions |
| CppFileParser.FirstCppBlock | cpp/src/fileparser.cpp:33-42 | a block's count line, discarded line and atom lines are where the loop reads them |
| CppFileParser.CppBlocksLayout | cpp/src/fileparser.cpp:33-44 | the loop accepts a sequence of handled blocks and reads them as their datasets |
| CppFileParser.CppLayout | cpp/src/fileparser.cpp:26-45 | a file made of handled blocks is readable and yields one dataset per block, in order |
| CppFileParser.ZeroCountContinues | cpp/src/fileparser.cpp:33-44 | a block with count zero becomes an empty dataset and the blocks after it are still read, the last one giving the last dataset |
| CppFileParser.ZeroCountReaders | cpp/src/fileparser.cpp:33-44 | a leading block with count zero ends the Python reader with no snapshot, while the native parser records it as an empty dataset and reads the rest, and its last dataset is the last block's |
| CppFileParser.ReadersAgree | cpp/src/fileparser.cpp:26-81 | where both readers accept a file of blocks with positive counts and read the same position from each line, they produce the same snapshots |
| CppFileParser.SameSnapshots | cpp/src/fileparser.cpp:63-79 | block by block, the two readers' positions agree |

## Left out

- Plotting and the structure presets in `ideal_rdf.py`, and plotting in `calculate_rdf.py`: these are visual output and configuration constants.
- Progress bars, printed messages and timing: they do not affect any result.
- The counter `dataset_id` in `FileParser::read_file`: it feeds only a printed message, and it always equals the number of datasets read in the current call.
- Writing the output file in `RDF::construct_rdf`: only the bin-centre formula is kept, as `Geometry.BinCentre`.
- Opening and reading files: a file is a given sequence of lines. Python's `readline` includes the line terminator, and the model treats lines as opaque strings.
- OpenMP: the pair loop is sequential. Its thread order changes only the order of `distances`, and `CppRdf.TruncHistogramPermutation` shows the histogram does not depend on it. The binning loop is modelled as fixed chunks of `chunk` distances, each binned into a private histogram and merged. The dynamic schedule and interleaving of the critical sections are not modelled.
- Floating point: all arithmetic is exact. IEEE rounding, `float` narrowing in the C++ code, `sqrt`, `pow` and the NumPy norm are not modelled. The norm is a parameter. At bin 0 the volume is computed in `double` as about -3.3e54, which is outside the range of `float`, so storing it in `const float V` is undefined behaviour (on IEEE platforms it becomes -inf and the bin's value -0.0). The model keeps the exact negative value and states only its sign.
- Text-to-number conversion (`int`, `float`, `boost::lexical_cast`, `float_parser.h`): these are parameters. `float_parser.h` is not part of this model.
- `main.cpp` is not part of this model.
- `IdealRdf.CalculateIdealRdf`: requires positive cell-row norms, because the source divides the cutoff by them. It requires `binsize > 0` and `cutoff >= 0`. A zero norm or bin size would raise in Python.
- `SnapshotRdf.CalculateRdf` and `CppRdf.Rdf.constructor`: require `binsize > 0` and `cutoff >= 0`. The constructor also requires that `cutoff / binsize` fits in `size_t`.
- `CppFileParser.FileParser.constructor`: requires a file the parser handles (`Readable`). A count line that `lexical_cast` rejects throws, and an atom line with fewer than four numbers indexes past its vector. These cases are not modelled as outcomes. Missing atom lines at the end of the file are also excluded.
- `CppFileParser.FileParser.GetDataset`: requires a non-empty parser for a negative index, because `back()` on an empty vector is undefined. `exit(-1)` is modelled as the error value `-1`.
- `CppRdf.Rdf.ConstructRdf`: an index past the end of `rdf_private` is undefined behaviour in C++. The model reports it as `ok == false` with no counts.
- `IdealRdf.SweepBins`: reading `distances[idx]` past the end raises `IndexError`. The model reports it as `ok == false`, and the counts of that run are not stated.
- `SnapshotReader.ReadAtomSetFromFile`: a failed regex match or a `float` error in Python raises. The model reports the first such line as a `ReadError` with its index.

## Findings

| source | as written | input that shows it | evidently intended | confidence | as-written member | corrected member |
|---|---|---|---|---|---|---|
| cpp/src/rdf.cpp:23,78-84 | `nr_bins` truncates `cutoff / binsize`, but only distances above the cutoff are skipped, so a distance in `[nr_bins * binsize, cutoff]` increments `rdf_private[nr_bins]`, one past the end | cutoff 1.0, binsize 0.5, two atoms at distance 1.0 | skip every distance whose bin index is not below `nr_bins`, so bin `i` counts `[i b, (i + 1) b)` | high (not executed) | CppRdf.Rdf.BinChunk, CppRdf.IndexPastEnd | CppRdf.TruncHistogram, CppRdf.TruncHistogramCounts |
| cpp/src/rdf.cpp:95-97 | `float(i-1)` is taken on `size_t`, so at `i = 0` the inner radius is `SIZE_MAX * binsize` and the volume of bin 0 is negative | any run with at least one bin, e.g. cutoff 15, binsize 0.05 | inner radius `-binsize`, as in `calculate_rdf.py`, giving a positive volume | high (not executed) | CppRdf.WrappedShellVolume | SnapshotRdf.ShellVolume |
| calculate_rdf.py:109-116, cpp/src/rdf.cpp:82,94-97 | bin `i` counts `[i b, (i + 1) b)`, but is divided by the volume of `[(i - 1) b, i b)`, the shell of the bin before it | binsize 1: bin 1 counts `[1, 2)` of volume `28/3 pi` but is divided by `4/3 pi` | divide bin `i` by the volume of the shell it counts, `4/3 pi ((i + 1)^3 - i^3) b^3` | medium (not executed) | SnapshotRdf.ShellVolume, SnapshotRdf.ShellVolumeMismatch | SnapshotRdf.BinVolume, SnapshotRdf.BinVolumesTile |
