/**
 * The native program's file parser: every block of the file (a count line, a discarded
 * line, then one line per atom whose second, third and fourth numbers are the position)
 * becomes one dataset, until `getline` finds no more lines.
 *
 * `boost::lexical_cast<size_t>` on a count line is the parameter `parseCount`, which gives
 * `None` where the cast throws; the float grammar `+float_` skipping spaces is the parameter
 * `parseFloats`, which gives the numbers it reads from the start of a line. A file the
 * parser cannot handle (a cast that throws, an atom line missing, an atom line with fewer
 * than four numbers, whose `floats[1..3]` reads past the vector) is excluded by `Readable`.
 */
module CppFileParser {
  import opened Wrappers
  import opened Geometry
  import opened TextLines
  import SnapshotReader

  /** The position on an atom line: the numbers after the first. */
  function AtomRow(parseFloats: string -> seq<real>, line: string): (p: Vec3)
    requires |parseFloats(line)| >= 4
    ensures p.x == parseFloats(line)[1] && p.y == parseFloats(line)[2] && p.z == parseFloats(line)[3]
  {
    var floats := parseFloats(line);
    Vec3(floats[1], floats[2], floats[3])
  }

  /** `n` lines from `start`, each with at least four numbers. */
  predicate AtomLinesOk(parseFloats: string -> seq<real>, lines: seq<string>, start: nat, n: nat) {
    start + n <= |lines| && forall k :: start <= k < start + n ==> |parseFloats(lines[k])| >= 4
  }

  /** The positions on `n` atom lines from `start`. */
  function AtomRows(parseFloats: string -> seq<real>, lines: seq<string>, start: nat, n: nat): (rows: seq<Vec3>)
    requires AtomLinesOk(parseFloats, lines, start, n)
    ensures |rows| == n
    ensures forall k :: 0 <= k < n ==> rows[k] == AtomRow(parseFloats, lines[start + k])
  {
    seq(n, k requires 0 <= k < n => AtomRow(parseFloats, lines[start + k]))
  }

  /** Where the atom lines of the block whose count line is at `pos` begin: after the discarded line. */
  function AtomStart(lines: seq<string>, pos: nat): (start: nat)
    requires pos < |lines|
    ensures pos < start <= |lines|
  {
    Advance(lines, pos + 1, 1)
  }

  /** The file from line `pos` on is a sequence of blocks `read_file` handles. */
  predicate Readable(parseCount: string -> Option<nat>, parseFloats: string -> seq<real>, lines: seq<string>, pos: nat)
    requires pos <= |lines|
    decreases |lines| - pos
  {
    pos == |lines| ||
    (parseCount(lines[pos]).Some? &&
     var n := parseCount(lines[pos]).value;
     var start := AtomStart(lines, pos);
     AtomLinesOk(parseFloats, lines, start, n) &&
     Readable(parseCount, parseFloats, lines, start + n))
  }

  /** The datasets `read_file` builds from line `pos` on: one per block, in order. */
  function Datasets(parseCount: string -> Option<nat>, parseFloats: string -> seq<real>, lines: seq<string>, pos: nat): seq<seq<Vec3>>
    requires pos <= |lines| && Readable(parseCount, parseFloats, lines, pos)
    decreases |lines| - pos
  {
    if pos == |lines| then []
    else
      var n := parseCount(lines[pos]).value;
      var start := AtomStart(lines, pos);
      [AtomRows(parseFloats, lines, start, n)] + Datasets(parseCount, parseFloats, lines, start + n)
  }

  /** One block of a readable file: its atom lines, then a readable rest. */
  lemma DatasetsStep(parseCount: string -> Option<nat>, parseFloats: string -> seq<real>, lines: seq<string>, pos: nat)
    requires pos < |lines| && Readable(parseCount, parseFloats, lines, pos)
    ensures var n := parseCount(lines[pos]).value;
      var start := AtomStart(lines, pos);
      AtomLinesOk(parseFloats, lines, start, n) && Readable(parseCount, parseFloats, lines, start + n) &&
      Datasets(parseCount, parseFloats, lines, pos) ==
        [AtomRows(parseFloats, lines, start, n)] + Datasets(parseCount, parseFloats, lines, start + n)
  {
  }

  /** Replacing the last element, then appending `rest`. */
  lemma ReplaceLast<T>(done: seq<T>, x: T, y: T, rest: seq<T>)
    ensures (done + [x])[..|done + [x]| - 1] + [y] + rest == done + ([y] + rest)
  {
    assert (done + [x])[..|done + [x]| - 1] == done;
  }

  /** `Position()`: the default position. */
  const Origin := Vec3(0.0, 0.0, 0.0)

  class FileParser {
    const lines: seq<string>
    var pos: nat
    var datasets: seq<seq<Vec3>>

    ghost predicate Valid()
      reads this
    {
      pos <= |lines|
    }

    /** `FileParser(filename)`: opens the file and reads all of it. */
    constructor(parseCount: string -> Option<nat>, parseFloats: string -> seq<real>, lines: seq<string>)
      requires Readable(parseCount, parseFloats, lines, 0)
      ensures Valid() && this.lines == lines && pos == |lines|
      ensures datasets == Datasets(parseCount, parseFloats, lines, 0)
    {
      this.lines := lines;
      pos := 0;
      datasets := [];
      new;
      ReadFile(parseCount, parseFloats);
    }

    /** `std::getline`: fails at the end of the file, where it stays. */
    method GetLine() returns (ok: bool, line: string)
      requires Valid()
      modifies this
      ensures Valid() && datasets == old(datasets)
      ensures ok <==> old(pos) < |lines|
      ensures line == LineAt(lines, old(pos)) && pos == Advance(lines, old(pos), 1)
    {
      ok := pos < |lines|;
      line := LineAt(lines, pos);
      pos := Advance(lines, pos, 1);
    }

    /** `read_file`: one dataset per count line, until `getline` fails. */
    method ReadFile(parseCount: string -> Option<nat>, parseFloats: string -> seq<real>)
      requires Valid() && Readable(parseCount, parseFloats, lines, pos)
      modifies this
      ensures Valid() && pos == |lines|
      ensures datasets == old(datasets) + Datasets(parseCount, parseFloats, lines, old(pos))
    {
      ghost var at := pos;
      var ok, line := GetLine();
      while ok
        invariant Valid() && at <= |lines| && Readable(parseCount, parseFloats, lines, at)
        invariant ok ==> at < |lines| && pos == at + 1 && line == lines[at]
        invariant !ok ==> at == |lines| && pos == |lines|
        invariant datasets + Datasets(parseCount, parseFloats, lines, at) == old(datasets) + Datasets(parseCount, parseFloats, lines, old(pos))
        decreases |lines| - at
      {
        ReadBlock(parseCount, parseFloats, at, line);
        at := pos;
        ok, line := GetLine();
      }
      assert datasets + [] == datasets;
    }

    /** One turn of `read_file`'s loop, after the count line at `at` has been read. */
    method ReadBlock(parseCount: string -> Option<nat>, parseFloats: string -> seq<real>, ghost at: nat, line: string)
      requires Valid() && at < |lines| && pos == at + 1 && line == lines[at]
      requires Readable(parseCount, parseFloats, lines, at)
      modifies this
      ensures Valid() && at < pos && Readable(parseCount, parseFloats, lines, pos)
      ensures datasets + Datasets(parseCount, parseFloats, lines, pos) == old(datasets) + Datasets(parseCount, parseFloats, lines, at)
    {
      var nrAtoms := parseCount(line).value;
      ghost var done := datasets;
      ghost var start := AtomStart(lines, at);
      DatasetsStep(parseCount, parseFloats, lines, at);
      ghost var rows := AtomRows(parseFloats, lines, start, nrAtoms);
      ghost var rest := Datasets(parseCount, parseFloats, lines, start + nrAtoms);
      var blank := seq(nrAtoms, _ => Origin);
      datasets := datasets + [blank];
      var discarded, skipped := GetLine();
      ReadAtoms(parseFloats, nrAtoms);
      ReplaceLast(done, blank, rows, rest);
    }

    /** `read_atoms(nr_lines, dataset_id)`: fills the last dataset from the next `nr_lines` lines. */
    method ReadAtoms(parseFloats: string -> seq<real>, nrLines: nat)
      requires Valid() && |datasets| > 0 && |datasets[|datasets| - 1]| == nrLines
      requires AtomLinesOk(parseFloats, lines, pos, nrLines)
      modifies this
      ensures Valid() && pos == old(pos) + nrLines
      ensures datasets == old(datasets)[..|old(datasets)| - 1] + [AtomRows(parseFloats, lines, old(pos), nrLines)]
    {
      ghost var start := pos;
      var last := |datasets| - 1;
      var i := 0;
      while i < nrLines
        invariant 0 <= i <= nrLines && pos == start + i && Valid()
        invariant |datasets| == |old(datasets)| && datasets[..last] == old(datasets)[..last]
        invariant |datasets[last]| == nrLines
        invariant forall k :: 0 <= k < i ==> datasets[last][k] == AtomRow(parseFloats, lines[start + k])
      {
        var ok, line := GetLine();
        var row := AtomRow(parseFloats, line);
        datasets := datasets[..last] + [datasets[last][i := row]];
        i := i + 1;
      }
      assert datasets[last] == AtomRows(parseFloats, lines, start, nrLines);
      assert datasets == datasets[..last] + [datasets[last]];
    }

    /**
     * `get_dataset(i)`: a negative index stands for the last dataset, an index past the
     * end ends the program with status -1 (the `Err` case); the last dataset of an empty
     * parser is undefined.
     */
    function GetDataset(i: int): (r: Result<seq<Vec3>, int>)
      reads this
      requires i < 0 ==> |datasets| > 0
      ensures r.Ok? <==> i < |datasets|
      ensures r.Err? ==> r.error == -1
      ensures 0 <= i < |datasets| ==> r == Ok(datasets[i])
    {
      if i < 0 then Ok(datasets[|datasets| - 1])
      else if i >= |datasets| then Err(-1)
      else Ok(datasets[i])
    }

    /** Every negative index gives the last dataset, the one the program goes on to use. */
    lemma NegativeIndexIsLast(i: int)
      requires i < 0 && |datasets| > 0
      ensures GetDataset(i) == GetDataset(|datasets| - 1) == Ok(datasets[|datasets| - 1])
    {
    }
  }

  // ---------------------------------------------------------------------------
  // The layout the parser accepts
  // ---------------------------------------------------------------------------

  /** A block the parser handles: its count line gives its number of atom lines, each with four numbers or more. */
  predicate CppBlock(parseCount: string -> Option<nat>, parseFloats: string -> seq<real>, b: Block) {
    parseCount(b.header) == Some(|b.atomLines|) && AllAtomLines(parseFloats, b.atomLines)
  }

  /** Every line has four numbers or more. */
  predicate AllAtomLines(parseFloats: string -> seq<real>, atomLines: seq<string>) {
    forall k :: 0 <= k < |atomLines| ==> |parseFloats(atomLines[k])| >= 4
  }

  /** The positions on a block's atom lines. */
  function BlockPositions(parseFloats: string -> seq<real>, atomLines: seq<string>): seq<Vec3>
    requires AllAtomLines(parseFloats, atomLines)
  {
    seq(|atomLines|, k requires 0 <= k < |atomLines| => AtomRow(parseFloats, atomLines[k]))
  }

  /** One dataset per block, each holding that block's positions. */
  function CppSnapshots(parseCount: string -> Option<nat>, parseFloats: string -> seq<real>, blocks: seq<Block>): (sets: seq<seq<Vec3>>)
    requires forall k :: 0 <= k < |blocks| ==> CppBlock(parseCount, parseFloats, blocks[k])
    ensures |sets| == |blocks|
    ensures forall k :: 0 <= k < |blocks| ==>
      AllAtomLines(parseFloats, blocks[k].atomLines) && sets[k] == BlockPositions(parseFloats, blocks[k].atomLines)
  {
    if blocks == [] then []
    else
      assert CppBlock(parseCount, parseFloats, blocks[0]);
      var rest := CppSnapshots(parseCount, parseFloats, blocks[1..]);
      assert forall k :: 1 <= k < |blocks| ==> blocks[k] == blocks[1..][k - 1];
      [BlockPositions(parseFloats, blocks[0].atomLines)] + rest
  }

  /** The first block of the file from `pos`: its atom lines follow the discarded line. */
  lemma FirstCppBlock(parseCount: string -> Option<nat>, parseFloats: string -> seq<real>,
                      lines: seq<string>, pos: nat, blocks: seq<Block>)
    requires pos <= |lines| && |blocks| > 0 && lines[pos..] == BlockLines(blocks)
    requires CppBlock(parseCount, parseFloats, blocks[0])
    ensures var n := |blocks[0].atomLines|;
      pos < |lines| && lines[pos] == blocks[0].header && AtomStart(lines, pos) == pos + 2 &&
      AtomLinesOk(parseFloats, lines, pos + 2, n) &&
      AtomRows(parseFloats, lines, pos + 2, n) == BlockPositions(parseFloats, blocks[0].atomLines) &&
      lines[pos + 2 + n..] == BlockLines(blocks[1..])
  {
    var b := blocks[0];
    var n := |b.atomLines|;
    BlockLinesHead(blocks, []);
    assert BlockLines(blocks) + [] == BlockLines(blocks);
    assert BlockLines(blocks[1..]) + [] == BlockLines(blocks[1..]);
    var suffix := lines[pos..];
    assert lines[pos] == suffix[0];
    forall k | 0 <= k < n
      ensures lines[pos + 2 + k] == b.atomLines[k]
    {
      assert lines[pos + 2 + k] == suffix[2..2 + n][k];
    }
    assert lines[pos + 2 + n..] == suffix[2 + n..];
  }

  lemma {:induction false} CppBlocksLayout(parseCount: string -> Option<nat>, parseFloats: string -> seq<real>,
                                           lines: seq<string>, pos: nat, blocks: seq<Block>)
    requires pos <= |lines| && lines[pos..] == BlockLines(blocks)
    requires forall k :: 0 <= k < |blocks| ==> CppBlock(parseCount, parseFloats, blocks[k])
    ensures Readable(parseCount, parseFloats, lines, pos)
    ensures Datasets(parseCount, parseFloats, lines, pos) == CppSnapshots(parseCount, parseFloats, blocks)
    decreases |blocks|
  {
    if blocks == [] {
      assert |lines[pos..]| == 0;
    } else {
      var n := |blocks[0].atomLines|;
      assert CppBlock(parseCount, parseFloats, blocks[0]);
      FirstCppBlock(parseCount, parseFloats, lines, pos, blocks);
      CppBlocksLayout(parseCount, parseFloats, lines, pos + 2 + n, blocks[1..]);
    }
  }

  /**
   * Framing: a file made of blocks the parser handles reads as one dataset per block, each
   * with that block's positions in order; a block with a count of zero gives an empty dataset
   * and reading goes on.
   */
  lemma CppLayout(parseCount: string -> Option<nat>, parseFloats: string -> seq<real>, blocks: seq<Block>)
    requires forall k :: 0 <= k < |blocks| ==> CppBlock(parseCount, parseFloats, blocks[k])
    ensures Readable(parseCount, parseFloats, BlockLines(blocks), 0)
    ensures Datasets(parseCount, parseFloats, BlockLines(blocks), 0) == CppSnapshots(parseCount, parseFloats, blocks)
  {
    var lines := BlockLines(blocks);
    assert lines[0..] == lines;
    CppBlocksLayout(parseCount, parseFloats, lines, 0, blocks);
  }

  /**
   * The two readers part ways at a count of zero: the snapshot program's reader stops and
   * returns no snapshot, the native parser records an empty dataset and reads the blocks
   * after it, and the dataset the native program then analyses (the last) is the last block's.
   */
  lemma ZeroCountReaders(parseInt: string -> Option<int>, parseLine: string -> Result<Vec3, SnapshotReader.AtomLineError>,
                         parseCount: string -> Option<nat>, parseFloats: string -> seq<real>, blocks: seq<Block>)
    requires |blocks| >= 2 && blocks[0].atomLines == [] && parseInt(blocks[0].header) == Some(0)
    requires forall k :: 0 <= k < |blocks| ==> CppBlock(parseCount, parseFloats, blocks[k])
    ensures SnapshotReader.ReadAtomSet(parseInt, parseLine, BlockLines(blocks)) == Ok([])
    ensures Readable(parseCount, parseFloats, BlockLines(blocks), 0) &&
      var sets := Datasets(parseCount, parseFloats, BlockLines(blocks), 0);
      |sets| == |blocks| && sets[0] == [] &&
      AllAtomLines(parseFloats, blocks[|blocks| - 1].atomLines) &&
      sets[|sets| - 1] == BlockPositions(parseFloats, blocks[|blocks| - 1].atomLines)
  {
    ZeroCountStops(parseInt, parseLine, blocks);
    ZeroCountContinues(parseCount, parseFloats, blocks);
  }

  /** The native parser records an empty dataset for a zero count and reads every block after it. */
  lemma ZeroCountContinues(parseCount: string -> Option<nat>, parseFloats: string -> seq<real>, blocks: seq<Block>)
    requires |blocks| >= 1 && blocks[0].atomLines == []
    requires forall k :: 0 <= k < |blocks| ==> CppBlock(parseCount, parseFloats, blocks[k])
    ensures Readable(parseCount, parseFloats, BlockLines(blocks), 0) &&
      var sets := Datasets(parseCount, parseFloats, BlockLines(blocks), 0);
      |sets| == |blocks| && sets[0] == [] &&
      AllAtomLines(parseFloats, blocks[|blocks| - 1].atomLines) &&
      sets[|sets| - 1] == BlockPositions(parseFloats, blocks[|blocks| - 1].atomLines)
  {
    CppLayout(parseCount, parseFloats, blocks);
    var last := |blocks| - 1;
    assert AllAtomLines(parseFloats, blocks[last].atomLines);
  }

  /** The snapshot program's reader returns no snapshot when the first count is zero. */
  lemma ZeroCountStops(parseInt: string -> Option<int>, parseLine: string -> Result<Vec3, SnapshotReader.AtomLineError>,
                       blocks: seq<Block>)
    requires |blocks| >= 1 && parseInt(blocks[0].header) == Some(0)
    ensures SnapshotReader.ReadAtomSet(parseInt, parseLine, BlockLines(blocks)) == Ok([])
  {
    BlockLinesHead(blocks, []);
    assert BlockLines(blocks) + [] == BlockLines(blocks);
  }

  /**
   * Where both readers accept a file of blocks with positive counts, they read the same
   * snapshots, provided they read the same count and the same position from each line.
   */
  lemma ReadersAgree(parseInt: string -> Option<int>, parseLine: string -> Result<Vec3, SnapshotReader.AtomLineError>,
                     parseCount: string -> Option<nat>, parseFloats: string -> seq<real>, blocks: seq<Block>)
    requires |blocks| > 0
    requires forall k :: 0 <= k < |blocks| ==> SnapshotReader.ReadableBlock(parseInt, parseLine, blocks[k])
    requires forall k :: 0 <= k < |blocks| ==> CppBlock(parseCount, parseFloats, blocks[k])
    requires forall k, j :: 0 <= k < |blocks| && 0 <= j < |blocks[k].atomLines| && |parseFloats(blocks[k].atomLines[j])| >= 4 ==>
      parseLine(blocks[k].atomLines[j]) == Ok(AtomRow(parseFloats, blocks[k].atomLines[j]))
    ensures Readable(parseCount, parseFloats, BlockLines(blocks), 0) &&
      SnapshotReader.ReadAtomSet(parseInt, parseLine, BlockLines(blocks)) ==
        Ok(Datasets(parseCount, parseFloats, BlockLines(blocks), 0))
  {
    SnapshotReader.ReadLayout(parseInt, parseLine, blocks, []);
    assert BlockLines(blocks) + [] == BlockLines(blocks);
    CppLayout(parseCount, parseFloats, blocks);
    SameSnapshots(parseInt, parseLine, parseCount, parseFloats, blocks);
  }

  lemma {:induction false} SameSnapshots(parseInt: string -> Option<int>, parseLine: string -> Result<Vec3, SnapshotReader.AtomLineError>,
                                         parseCount: string -> Option<nat>, parseFloats: string -> seq<real>, blocks: seq<Block>)
    requires forall k :: 0 <= k < |blocks| ==> SnapshotReader.ReadableBlock(parseInt, parseLine, blocks[k])
    requires forall k :: 0 <= k < |blocks| ==> CppBlock(parseCount, parseFloats, blocks[k])
    requires forall k, j :: 0 <= k < |blocks| && 0 <= j < |blocks[k].atomLines| && |parseFloats(blocks[k].atomLines[j])| >= 4 ==>
      parseLine(blocks[k].atomLines[j]) == Ok(AtomRow(parseFloats, blocks[k].atomLines[j]))
    ensures SnapshotReader.Snapshots(parseInt, parseLine, blocks) == CppSnapshots(parseCount, parseFloats, blocks)
    decreases |blocks|
  {
    if blocks != [] {
      SameSnapshots(parseInt, parseLine, parseCount, parseFloats, blocks[1..]);
      assert SnapshotReader.ReadableBlock(parseInt, parseLine, blocks[0]);
      assert CppBlock(parseCount, parseFloats, blocks[0]);
      assert SnapshotReader.BlockAtoms(parseLine, blocks[0].atomLines) == BlockPositions(parseFloats, blocks[0].atomLines);
    }
  }
}
