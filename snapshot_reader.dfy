/**
 * The snapshot program's trajectory reader: a count line, a skipped line, then one line
 * per atom of the form `index x y z`, repeated until a count of zero (or less) or the end
 * of the file.
 *
 * Lines are the strings `readline` returns (terminator included); past the end of the
 * file it returns `""`. Python's `int` and `float` on a string are parameters returning
 * `None` where Python raises `ValueError`; the atom-line pattern is matched here.
 */
module SnapshotReader {
  import opened Wrappers
  import opened Geometry
  import opened TextLines

  // ---------------------------------------------------------------------------
  // The atom-line pattern `(\d+) ([\d.]+) ([\d.]+) ([\d.]+)`, anchored at the start
  // ---------------------------------------------------------------------------

  predicate IsDigit(c: char) {
    '0' <= c <= '9'
  }

  predicate IsNumberChar(c: char) {
    IsDigit(c) || c == '.'
  }

  predicate AllOf(s: string, accept: char -> bool) {
    forall k :: 0 <= k < |s| ==> accept(s[k])
  }

  /** The length of the longest prefix of `s` whose characters `accept` takes. */
  function Run(s: string, accept: char -> bool): (n: nat)
    ensures n <= |s|
  {
    if s != [] && accept(s[0]) then 1 + Run(s[1..], accept) else 0
  }

  /** The run is the longest prefix of accepted characters: all of it accepted, the next one not. */
  lemma {:induction false} RunFacts(s: string, accept: char -> bool)
    ensures AllOf(s[..Run(s, accept)], accept)
    ensures Run(s, accept) < |s| ==> !accept(s[Run(s, accept)])
  {
    if s != [] && accept(s[0]) {
      RunFacts(s[1..], accept);
      var n := Run(s, accept);
      assert forall k :: 1 <= k < n ==> s[k] == s[1..][k - 1];
    }
  }

  /** A non-empty run followed by one space: the run and what follows the space. */
  function SpacedField(s: string, accept: char -> bool): Option<(string, string)>
  {
    var n := Run(s, accept);
    if n == 0 || n == |s| || s[n] != ' ' then None else Some((s[..n], s[n + 1..]))
  }

  /** A non-empty run at the end of the pattern: `re.match` takes the longest. */
  function LastField(s: string, accept: char -> bool): Option<string>
  {
    var n := Run(s, accept);
    if n == 0 then None else Some(s[..n])
  }

  /** The four groups of a match. */
  datatype AtomFields = AtomFields(index: string, x: string, y: string, z: string)

  function MatchAtomLine(s: string): Option<AtomFields>
  {
    match SpacedField(s, IsDigit)
    case None => None
    case Some((index, s1)) =>
      match SpacedField(s1, IsNumberChar)
      case None => None
      case Some((x, s2)) =>
        match SpacedField(s2, IsNumberChar)
        case None => None
        case Some((y, s3)) =>
          match LastField(s3, IsNumberChar)
          case None => None
          case Some(z) => Some(AtomFields(index, x, y, z))
  }

  /** Groups the pattern can produce: digits, then three non-empty runs of digits and dots. */
  predicate WellFormedFields(f: AtomFields) {
    |f.index| > 0 && AllOf(f.index, IsDigit) &&
    |f.x| > 0 && AllOf(f.x, IsNumberChar) &&
    |f.y| > 0 && AllOf(f.y, IsNumberChar) &&
    |f.z| > 0 && AllOf(f.z, IsNumberChar)
  }

  /** What may follow the last group: nothing, or a character that cannot extend it. */
  predicate EndsField(t: string) {
    t == [] || !IsNumberChar(t[0])
  }

  /** A line made of the four groups separated by single spaces, followed by `t`. */
  function AtomLine(f: AtomFields, t: string): string {
    f.index + " " + (f.x + " " + (f.y + " " + (f.z + t)))
  }

  lemma {:induction false} RunOf(u: string, t: string, accept: char -> bool)
    requires AllOf(u, accept)
    requires t == [] || !accept(t[0])
    ensures Run(u + t, accept) == |u|
  {
    if u != [] {
      assert (u + t)[1..] == u[1..] + t;
      RunOf(u[1..], t, accept);
    } else {
      assert u + t == t;
    }
  }

  lemma SpacedFieldOf(u: string, t: string, accept: char -> bool)
    requires |u| > 0 && AllOf(u, accept) && !accept(' ')
    ensures SpacedField(u + " " + t, accept) == Some((u, t))
  {
    assert u + " " + t == u + (" " + t);
    RunOf(u, " " + t, accept);
    var s := u + " " + t;
    assert s[..|u|] == u;
    assert s[|u| + 1..] == t;
  }

  lemma SpacedFieldSound(s: string, accept: char -> bool)
    requires SpacedField(s, accept).Some?
    ensures var (u, t) := SpacedField(s, accept).value;
      |u| > 0 && AllOf(u, accept) && s == u + " " + t
  {
    var n := Run(s, accept);
    RunFacts(s, accept);
    assert s == s[..n] + [s[n]] + s[n + 1..];
  }

  lemma LastFieldOf(u: string, t: string, accept: char -> bool)
    requires |u| > 0 && AllOf(u, accept)
    requires t == [] || !accept(t[0])
    ensures LastField(u + t, accept) == Some(u)
  {
    RunOf(u, t, accept);
    assert (u + t)[..|u|] == u;
  }

  /** A line with four well-formed groups and a tail that cannot extend the last one matches. */
  lemma MatchAtomLineOf(f: AtomFields, t: string)
    requires WellFormedFields(f) && EndsField(t)
    ensures MatchAtomLine(AtomLine(f, t)) == Some(f)
  {
    SpacedFieldOf(f.index, f.x + " " + (f.y + " " + (f.z + t)), IsDigit);
    SpacedFieldOf(f.x, f.y + " " + (f.z + t), IsNumberChar);
    SpacedFieldOf(f.y, f.z + t, IsNumberChar);
    LastFieldOf(f.z, t, IsNumberChar);
  }

  /**
   * Conversely, a line matches only when it is four well-formed groups separated by single
   * spaces, followed by a tail that cannot extend the last group.
   */
  lemma MatchAtomLineSound(s: string)
    requires MatchAtomLine(s).Some?
    ensures WellFormedFields(MatchAtomLine(s).value)
    ensures exists t :: EndsField(t) && s == AtomLine(MatchAtomLine(s).value, t)
  {
    var f := MatchAtomLine(s).value;
    var p1 := SpacedField(s, IsDigit).value;
    var p2 := SpacedField(p1.1, IsNumberChar).value;
    var p3 := SpacedField(p2.1, IsNumberChar).value;
    assert f == AtomFields(p1.0, p2.0, p3.0, LastField(p3.1, IsNumberChar).value);
    SpacedFieldSound(s, IsDigit);
    SpacedFieldSound(p1.1, IsNumberChar);
    SpacedFieldSound(p2.1, IsNumberChar);
    var t := LastFieldSound(p3.1, IsNumberChar);
    JoinFields(s, p1.1, p2.1, p3.1, f, t);
  }

  /** A last field matched, with what follows it: a tail that cannot extend it. */
  lemma LastFieldSound(s: string, accept: char -> bool) returns (t: string)
    requires LastField(s, accept).Some?
    ensures var u := LastField(s, accept).value;
      |u| > 0 && AllOf(u, accept) && s == u + t && (t == [] || !accept(t[0]))
  {
    var n := Run(s, accept);
    RunFacts(s, accept);
    t := s[n..];
    assert s == s[..n] + t;
  }

  /** The line split field by field is the line the fields compose. */
  lemma JoinFields(s: string, s1: string, s2: string, s3: string, f: AtomFields, t: string)
    requires s == f.index + " " + s1 && s1 == f.x + " " + s2 && s2 == f.y + " " + s3 && s3 == f.z + t
    ensures s == AtomLine(f, t)
  {
  }

  /** No matched group carries a sign: a line whose first character is `-` or `+` never matches. */
  lemma SignRejected(s: string)
    requires |s| > 0 && (s[0] == '-' || s[0] == '+')
    ensures MatchAtomLine(s) == None
  {
  }

  /** Neither is a signed coordinate accepted in place of a group. */
  lemma SignedCoordinateRejected(index: string, t: string)
    requires |index| > 0 && AllOf(index, IsDigit)
    ensures MatchAtomLine(index + " " + ("-" + t)) == None
  {
    SpacedFieldOf(index, "-" + t, IsDigit);
  }

  // ---------------------------------------------------------------------------
  // Atom lines and blocks
  // ---------------------------------------------------------------------------

  datatype AtomLineError = NoMatch | BadNumber

  /** Why reading stopped, with the index of the offending line. */
  datatype ReadError = BadCount(line: nat) | BadAtomLine(line: nat, why: AtomLineError)

  /** One atom line: the match, then `float` on groups 2, 3 and 4 (group 1 is dropped). */
  function ParseAtomLine(parseFloat: string -> Option<real>, s: string): Result<Vec3, AtomLineError>
  {
    match MatchAtomLine(s)
    case None => Err(NoMatch)
    case Some(f) =>
      var x := parseFloat(f.x);
      var y := parseFloat(f.y);
      var z := parseFloat(f.z);
      if x.None? || y.None? || z.None? then Err(BadNumber) else Ok(Vec3(x.value, y.value, z.value))
  }

  /** `grab_atoms`' treatment of one line: the pattern, then `float` on its groups. */
  function AtomParser(parseFloat: string -> Option<real>): string -> Result<Vec3, AtomLineError>
  {
    s => ParseAtomLine(parseFloat, s)
  }

  /**
   * The coordinates of a well-formed line are `float` of its groups 2 to 4; the index
   * group and the tail play no part.
   */
  lemma ParseAtomLineOf(parseFloat: string -> Option<real>, f: AtomFields, t: string)
    requires WellFormedFields(f) && EndsField(t)
    ensures parseFloat(f.x).Some? && parseFloat(f.y).Some? && parseFloat(f.z).Some? ==>
      ParseAtomLine(parseFloat, AtomLine(f, t)) == Ok(Vec3(parseFloat(f.x).value, parseFloat(f.y).value, parseFloat(f.z).value))
    ensures parseFloat(f.x).None? || parseFloat(f.y).None? || parseFloat(f.z).None? ==>
      ParseAtomLine(parseFloat, AtomLine(f, t)) == Err(BadNumber)
  {
    MatchAtomLineOf(f, t);
  }

  /** `acc` in front of a successful result; an error is passed on. */
  function Prepend<T>(acc: seq<T>, r: Result<seq<T>, ReadError>): (p: Result<seq<T>, ReadError>)
    ensures p.Ok? <==> r.Ok?
    ensures p.Ok? ==> p.value == acc + r.value
    ensures p.Err? ==> p == r
  {
    match r
    case Ok(v) => Ok(acc + v)
    case Err(e) => Err(e)
  }

  lemma PrependNothing<T>(r: Result<seq<T>, ReadError>)
    ensures Prepend([], r) == r
  {
    if r.Ok? {
      assert [] + r.value == r.value;
    }
  }

  lemma PrependPrepend<T>(acc: seq<T>, more: seq<T>, r: Result<seq<T>, ReadError>)
    ensures Prepend(acc, Prepend(more, r)) == Prepend(acc + more, r)
  {
    if r.Ok? {
      assert acc + (more + r.value) == acc + more + r.value;
    }
  }

  /** `grab_atoms(f, n)` with the file at `pos`: `n` atom lines, or the first bad one. */
  function Grab(parseLine: string -> Result<Vec3, AtomLineError>, lines: seq<string>, pos: nat, n: nat): (r: Result<seq<Vec3>, ReadError>)
    requires pos <= |lines|
    ensures r.Ok? ==> |r.value| == n
    decreases n
  {
    if n == 0 then Ok([])
    else
      match parseLine(LineAt(lines, pos))
      case Err(why) => Err(BadAtomLine(pos, why))
      case Ok(v) => Prepend([v], Grab(parseLine, lines, Advance(lines, pos, 1), n - 1))
  }

  /** `grab_atoms` stops at the first line that does not parse and reports that line. */
  lemma {:induction false} GrabStopsAtBadLine(parseLine: string -> Result<Vec3, AtomLineError>, lines: seq<string>,
                                              pos: nat, n: nat, k: nat, why: AtomLineError)
    requires pos + k <= |lines| && k < n
    requires forall j :: pos <= j < pos + k ==> parseLine(lines[j]).Ok?
    requires parseLine(LineAt(lines, pos + k)) == Err(why)
    ensures Grab(parseLine, lines, pos, n) == Err(BadAtomLine(pos + k, why))
    decreases k
  {
    if k > 0 {
      assert parseLine(LineAt(lines, pos)).Ok?;
      assert Advance(lines, pos, 1) == pos + 1;
      GrabStopsAtBadLine(parseLine, lines, pos + 1, n - 1, k - 1, why);
    }
  }

  /** Past the end of the file `readline` gives the empty line, which the pattern does not match. */
  lemma EmptyLineRejected(parseFloat: string -> Option<real>)
    ensures AtomParser(parseFloat)("") == Err(NoMatch)
  {
  }

  /**
   * The loop of `read_atom_set_from_file` from the skipped line at `pos`, with the count
   * `nrAtoms` just read: stop at a count of zero or less, and after a block when no line
   * follows.
   */
  function Blocks(parseInt: string -> Option<int>, parseLine: string -> Result<Vec3, AtomLineError>,
                  lines: seq<string>, pos: nat, nrAtoms: int): Result<seq<seq<Vec3>>, ReadError>
    requires pos <= |lines|
    decreases |lines| - pos
  {
    if nrAtoms <= 0 then Ok([])
    else
      var start := Advance(lines, pos, 1);
      match Grab(parseLine, lines, start, nrAtoms)
      case Err(e) => Err(e)
      case Ok(atoms) =>
        var h := Advance(lines, start, nrAtoms);
        var line := LineAt(lines, h);
        if line == "" then Ok([atoms])
        else
          match parseInt(line)
          case None => Err(BadCount(h))
          case Some(c) => Prepend([atoms], Blocks(parseInt, parseLine, lines, h + 1, c))
  }

  /** `read_atom_set_from_file`: the first count, then the blocks. */
  function ReadAtomSet(parseInt: string -> Option<int>, parseLine: string -> Result<Vec3, AtomLineError>, lines: seq<string>): Result<seq<seq<Vec3>>, ReadError>
  {
    match parseInt(LineAt(lines, 0))
    case None => Err(BadCount(0))
    case Some(c) => Blocks(parseInt, parseLine, lines, Advance(lines, 0, 1), c)
  }

  // ---------------------------------------------------------------------------
  // The reading code
  // ---------------------------------------------------------------------------

  /** An open file: its lines and the position of the next `readline`. */
  class LineReader {
    const lines: seq<string>
    var pos: nat

    ghost predicate Valid()
      reads this
    {
      pos <= |lines|
    }

    constructor(lines: seq<string>)
      ensures this.lines == lines && pos == 0 && Valid()
    {
      this.lines := lines;
      pos := 0;
    }

    /** `readline`: the next line, or `""` at the end of the file (where it stays). */
    method ReadLine() returns (line: string)
      requires Valid()
      modifies this
      ensures Valid()
      ensures line == LineAt(lines, old(pos)) && pos == Advance(lines, old(pos), 1)
    {
      if pos < |lines| {
        line := lines[pos];
        pos := pos + 1;
      } else {
        line := "";
      }
    }
  }

  /** `grab_atoms(fhandle, nr_atoms)` */
  method GrabAtoms(parseLine: string -> Result<Vec3, AtomLineError>, f: LineReader, nrAtoms: nat) returns (r: Result<seq<Vec3>, ReadError>)
    requires f.Valid()
    modifies f
    ensures f.Valid()
    ensures r == Grab(parseLine, f.lines, old(f.pos), nrAtoms)
    ensures r.Ok? ==> f.pos == Advance(f.lines, old(f.pos), nrAtoms)
  {
    var atoms: seq<Vec3> := [];
    var i := 0;
    PrependNothing(Grab(parseLine, f.lines, f.pos, nrAtoms));
    while i < nrAtoms
      invariant 0 <= i <= nrAtoms && f.Valid()
      invariant f.pos == Advance(f.lines, old(f.pos), i)
      invariant Grab(parseLine, f.lines, old(f.pos), nrAtoms) == Prepend(atoms, Grab(parseLine, f.lines, f.pos, nrAtoms - i))
    {
      var at := f.pos;
      var line := f.ReadLine();
      var parsed := parseLine(line);
      if parsed.Err? {
        return Err(BadAtomLine(at, parsed.error));
      }
      PrependPrepend(atoms, [parsed.value], Grab(parseLine, f.lines, f.pos, nrAtoms - i - 1));
      atoms := atoms + [parsed.value];
      i := i + 1;
    }
    assert atoms + [] == atoms;
    return Ok(atoms);
  }

  /** `read_atom_set_from_file(filename)` on the file's lines. */
  method ReadAtomSetFromFile(parseInt: string -> Option<int>, parseLine: string -> Result<Vec3, AtomLineError>, lines: seq<string>)
    returns (r: Result<seq<seq<Vec3>>, ReadError>)
    ensures r == ReadAtomSet(parseInt, parseLine, lines)
  {
    var f := new LineReader(lines);
    var first := f.ReadLine();
    var count := parseInt(first);
    if count.None? {
      return Err(BadCount(0));
    }
    var nrAtoms := count.value;
    var snapshots: seq<seq<Vec3>> := [];
    PrependNothing(Blocks(parseInt, parseLine, lines, f.pos, nrAtoms));
    while nrAtoms > 0
      invariant f.Valid() && f.lines == lines
      invariant ReadAtomSet(parseInt, parseLine, lines) == Prepend(snapshots, Blocks(parseInt, parseLine, lines, f.pos, nrAtoms))
      decreases |lines| - f.pos + (if nrAtoms > 0 then 1 else 0)
    {
      var skipped := f.ReadLine();
      var atoms := GrabAtoms(parseLine, f, nrAtoms);
      if atoms.Err? {
        return Err(atoms.error);
      }
      var h := f.pos;
      var line := f.ReadLine();
      if line != "" {
        var next := parseInt(line);
        if next.None? {
          return Err(BadCount(h));
        }
        PrependPrepend(snapshots, [atoms.value], Blocks(parseInt, parseLine, lines, f.pos, next.value));
        nrAtoms := next.value;
      } else {
        assert snapshots + [atoms.value] + [] == snapshots + [atoms.value];
        nrAtoms := 0;
      }
      snapshots := snapshots + [atoms.value];
    }
    assert snapshots + [] == snapshots;
    return Ok(snapshots);
  }

  // ---------------------------------------------------------------------------
  // The layout the reader accepts
  // ---------------------------------------------------------------------------

  /** A block the reader takes whole: a non-empty count line giving its number of atom lines, all valid. */
  ghost predicate ReadableBlock(parseInt: string -> Option<int>, parseLine: string -> Result<Vec3, AtomLineError>, b: Block) {
    b.header != "" && |b.atomLines| > 0 && parseInt(b.header) == Some(|b.atomLines|) &&
    forall k :: 0 <= k < |b.atomLines| ==> parseLine(b.atomLines[k]).Ok?
  }

  /** The atoms of a block's lines. */
  function BlockAtoms(parseLine: string -> Result<Vec3, AtomLineError>, atomLines: seq<string>): seq<Vec3>
    requires forall k :: 0 <= k < |atomLines| ==> parseLine(atomLines[k]).Ok?
  {
    seq(|atomLines|, k requires 0 <= k < |atomLines| => parseLine(atomLines[k]).value)
  }

  function Snapshots(parseInt: string -> Option<int>, parseLine: string -> Result<Vec3, AtomLineError>, blocks: seq<Block>): seq<seq<Vec3>>
    requires forall k :: 0 <= k < |blocks| ==> ReadableBlock(parseInt, parseLine, blocks[k])
  {
    if blocks == [] then []
    else
      assert ReadableBlock(parseInt, parseLine, blocks[0]);
      [BlockAtoms(parseLine, blocks[0].atomLines)] + Snapshots(parseInt, parseLine, blocks[1..])
  }

  /** What may follow the last block: nothing, or a count line of zero or less. */
  predicate Terminator(parseInt: string -> Option<int>, tail: seq<string>) {
    tail == [] || (tail[0] != "" && parseInt(tail[0]).Some? && parseInt(tail[0]).value <= 0)
  }

  lemma {:induction false} GrabLines(parseLine: string -> Result<Vec3, AtomLineError>, lines: seq<string>, pos: nat, atomLines: seq<string>)
    requires pos + |atomLines| <= |lines| && lines[pos..pos + |atomLines|] == atomLines
    requires forall k :: 0 <= k < |atomLines| ==> parseLine(atomLines[k]).Ok?
    ensures Grab(parseLine, lines, pos, |atomLines|) == Ok(BlockAtoms(parseLine, atomLines))
    decreases |atomLines|
  {
    if atomLines != [] {
      assert LineAt(lines, pos) == atomLines[0];
      var rest := atomLines[1..];
      assert lines[pos + 1..pos + 1 + |rest|] == rest;
      GrabLines(parseLine, lines, pos + 1, rest);
      assert BlockAtoms(parseLine, atomLines) == [parseLine(atomLines[0]).value] + BlockAtoms(parseLine, rest);
    }
  }

  /** Where the parts of the first block sit when the block's count line is at `pos - 1`. */
  lemma LayoutAt(lines: seq<string>, pos: nat, blocks: seq<Block>, tail: seq<string>)
    requires 1 <= pos <= |lines| && |blocks| > 0
    requires lines[pos - 1..] == BlockLines(blocks) + tail
    ensures var n := |blocks[0].atomLines|;
      pos + 1 + n <= |lines| &&
      lines[pos + 1..pos + 1 + n] == blocks[0].atomLines &&
      lines[pos + 1 + n..] == BlockLines(blocks[1..]) + tail
  {
    var n := |blocks[0].atomLines|;
    BlockLinesHead(blocks, tail);
    var suffix := lines[pos - 1..];
    assert lines[pos + 1..pos + 1 + n] == suffix[2..2 + n];
    assert lines[pos + 1 + n..] == suffix[2 + n..];
  }

  /** A block followed by the end of the file or by a count of zero or less ends the reading. */
  lemma BlocksStop(parseInt: string -> Option<int>, parseLine: string -> Result<Vec3, AtomLineError>,
                   lines: seq<string>, pos: nat, n: nat, atoms: seq<Vec3>)
    requires n > 0 && pos + 1 + n <= |lines|
    requires Grab(parseLine, lines, pos + 1, n) == Ok(atoms)
    requires var line := LineAt(lines, pos + 1 + n);
      line == "" || (parseInt(line).Some? && parseInt(line).value <= 0)
    ensures Blocks(parseInt, parseLine, lines, pos, n) == Ok([atoms])
  {
    assert Advance(lines, pos, 1) == pos + 1;
    assert Advance(lines, pos + 1, n) == pos + 1 + n;
    assert [atoms] + [] == [atoms];
  }

  /** A block followed by a positive count line goes on with the next block. */
  lemma BlocksContinue(parseInt: string -> Option<int>, parseLine: string -> Result<Vec3, AtomLineError>,
                       lines: seq<string>, pos: nat, n: nat, atoms: seq<Vec3>, c: int, later: seq<seq<Vec3>>)
    requires n > 0 && pos + 1 + n < |lines|
    requires Grab(parseLine, lines, pos + 1, n) == Ok(atoms)
    requires LineAt(lines, pos + 1 + n) != "" && parseInt(LineAt(lines, pos + 1 + n)) == Some(c)
    requires Blocks(parseInt, parseLine, lines, pos + 2 + n, c) == Ok(later)
    ensures Blocks(parseInt, parseLine, lines, pos, n) == Ok([atoms] + later)
  {
    assert Advance(lines, pos, 1) == pos + 1;
    assert Advance(lines, pos + 1, n) == pos + 1 + n;
  }

  /** The first block's atoms, and the line after them, for a block whose count line is at `pos - 1`. */
  lemma FirstBlock(parseInt: string -> Option<int>, parseLine: string -> Result<Vec3, AtomLineError>,
                   lines: seq<string>, pos: nat, blocks: seq<Block>, tail: seq<string>)
    requires 1 <= pos <= |lines| && |blocks| > 0
    requires forall k :: 0 <= k < |blocks| ==> ReadableBlock(parseInt, parseLine, blocks[k])
    requires lines[pos - 1..] == BlockLines(blocks) + tail
    ensures var n := |blocks[0].atomLines|;
      ReadableBlock(parseInt, parseLine, blocks[0]) && n > 0 && pos + 1 + n <= |lines| &&
      Grab(parseLine, lines, pos + 1, n) == Ok(BlockAtoms(parseLine, blocks[0].atomLines)) &&
      lines[pos + 1 + n..] == BlockLines(blocks[1..]) + tail &&
      Snapshots(parseInt, parseLine, blocks) ==
        [BlockAtoms(parseLine, blocks[0].atomLines)] + Snapshots(parseInt, parseLine, blocks[1..])
  {
    assert ReadableBlock(parseInt, parseLine, blocks[0]);
    LayoutAt(lines, pos, blocks, tail);
    GrabLines(parseLine, lines, pos + 1, blocks[0].atomLines);
  }

  lemma TerminatorAt(parseInt: string -> Option<int>, lines: seq<string>, h: nat, tail: seq<string>)
    requires h <= |lines| && lines[h..] == BlockLines([]) + tail && Terminator(parseInt, tail)
    ensures var line := LineAt(lines, h);
      line == "" || (parseInt(line).Some? && parseInt(line).value <= 0)
  {
    if tail != [] {
      assert lines[h..][0] == tail[0];
    }
  }

  lemma HeaderAt(lines: seq<string>, h: nat, blocks: seq<Block>, tail: seq<string>)
    requires h <= |lines| && |blocks| > 0 && lines[h..] == BlockLines(blocks) + tail
    ensures h < |lines| && LineAt(lines, h) == blocks[0].header
  {
    BlockLinesHead(blocks, tail);
    assert lines[h..][0] == blocks[0].header;
  }

  lemma {:induction false} BlocksLayout(parseInt: string -> Option<int>, parseLine: string -> Result<Vec3, AtomLineError>,
                                        lines: seq<string>, pos: nat, blocks: seq<Block>, tail: seq<string>)
    requires 1 <= pos <= |lines| && |blocks| > 0
    requires forall k :: 0 <= k < |blocks| ==> ReadableBlock(parseInt, parseLine, blocks[k])
    requires Terminator(parseInt, tail)
    requires lines[pos - 1..] == BlockLines(blocks) + tail
    ensures Blocks(parseInt, parseLine, lines, pos, |blocks[0].atomLines|) == Ok(Snapshots(parseInt, parseLine, blocks))
    decreases |blocks|, 1
  {
    if |blocks| == 1 {
      var n := |blocks[0].atomLines|;
      FirstBlock(parseInt, parseLine, lines, pos, blocks, tail);
      var atoms := BlockAtoms(parseLine, blocks[0].atomLines);
      assert [atoms] + Snapshots(parseInt, parseLine, blocks[1..]) == [atoms];
      TerminatorAt(parseInt, lines, pos + 1 + n, tail);
      BlocksStop(parseInt, parseLine, lines, pos, n, atoms);
    } else {
      NextBlockLayout(parseInt, parseLine, lines, pos, blocks, tail);
    }
  }

  lemma {:induction false} NextBlockLayout(parseInt: string -> Option<int>, parseLine: string -> Result<Vec3, AtomLineError>,
                                           lines: seq<string>, pos: nat, blocks: seq<Block>, tail: seq<string>)
    requires 1 <= pos <= |lines| && |blocks| > 1
    requires forall k :: 0 <= k < |blocks| ==> ReadableBlock(parseInt, parseLine, blocks[k])
    requires Terminator(parseInt, tail)
    requires lines[pos - 1..] == BlockLines(blocks) + tail
    ensures Blocks(parseInt, parseLine, lines, pos, |blocks[0].atomLines|) == Ok(Snapshots(parseInt, parseLine, blocks))
    decreases |blocks|, 0
  {
    var n := |blocks[0].atomLines|;
    FirstBlock(parseInt, parseLine, lines, pos, blocks, tail);
    var h := pos + 1 + n;
    HeaderAt(lines, h, blocks[1..], tail);
    assert ReadableBlock(parseInt, parseLine, blocks[1]);
    var c := |blocks[1].atomLines|;
    BlocksLayout(parseInt, parseLine, lines, h + 1, blocks[1..], tail);
    BlocksContinue(parseInt, parseLine, lines, pos, n, BlockAtoms(parseLine, blocks[0].atomLines), c,
                   Snapshots(parseInt, parseLine, blocks[1..]));
  }

  /**
   * Framing: a file of readable blocks, ended by the end of the file or by a count of
   * zero or less, reads as one snapshot per block, each with that block's atoms in order.
   */
  lemma ReadLayout(parseInt: string -> Option<int>, parseLine: string -> Result<Vec3, AtomLineError>, blocks: seq<Block>, tail: seq<string>)
    requires |blocks| > 0
    requires forall k :: 0 <= k < |blocks| ==> ReadableBlock(parseInt, parseLine, blocks[k])
    requires Terminator(parseInt, tail)
    ensures ReadAtomSet(parseInt, parseLine, BlockLines(blocks) + tail) == Ok(Snapshots(parseInt, parseLine, blocks))
  {
    var lines := BlockLines(blocks) + tail;
    BlockLinesHead(blocks, tail);
    assert lines[0..] == lines;
    BlocksLayout(parseInt, parseLine, lines, 1, blocks, tail);
  }

  /**
   * One snapshot per block: snapshot `k` holds the positions of block `k`'s atom lines,
   * in order, as many as its count line says.
   */
  lemma SnapshotsShape(parseInt: string -> Option<int>, parseLine: string -> Result<Vec3, AtomLineError>, blocks: seq<Block>)
    requires forall k :: 0 <= k < |blocks| ==> ReadableBlock(parseInt, parseLine, blocks[k])
    ensures |Snapshots(parseInt, parseLine, blocks)| == |blocks|
    ensures forall k :: 0 <= k < |blocks| ==>
      Snapshots(parseInt, parseLine, blocks)[k] == BlockAtoms(parseLine, blocks[k].atomLines)
    ensures forall k :: 0 <= k < |blocks| ==>
      parseInt(blocks[k].header) == Some(|Snapshots(parseInt, parseLine, blocks)[k]|)
  {
    if blocks != [] {
      SnapshotsShape(parseInt, parseLine, blocks[1..]);
      forall k | 1 <= k < |blocks|
        ensures Snapshots(parseInt, parseLine, blocks)[k] == Snapshots(parseInt, parseLine, blocks[1..])[k - 1]
        ensures Snapshots(parseInt, parseLine, blocks)[k] == BlockAtoms(parseLine, blocks[k].atomLines)
      {
        assert blocks[k] == blocks[1..][k - 1];
      }
    }
  }
}
