/**
 * The text layout both snapshot readers consume: a file as the sequence of its lines,
 * where reading past the last line yields the empty string and does not move, and the
 * block layout of a trajectory file (a count line, a comment line, then one line per atom).
 */
module TextLines {

  /** The line at `pos`, or `""` once the file is exhausted. */
  function LineAt(lines: seq<string>, pos: nat): string
  {
    if pos < |lines| then lines[pos] else ""
  }

  /** The position after reading `n` lines from `pos`: it stops at the end of the file. */
  function Advance(lines: seq<string>, pos: nat, n: nat): (next: nat)
    requires pos <= |lines|
    ensures pos <= next <= |lines|
    ensures next == pos + n || next == |lines|
    ensures pos + n <= |lines| ==> next == pos + n
  {
    if pos + n <= |lines| then pos + n else |lines|
  }

  /** One snapshot as written in a file. */
  datatype Block = Block(header: string, comment: string, atomLines: seq<string>)

  /** The lines of a sequence of blocks, in order. */
  function BlockLines(blocks: seq<Block>): (lines: seq<string>)
    ensures |blocks| > 0 ==> |lines| >= 2 + |blocks[0].atomLines|
  {
    if blocks == [] then []
    else [blocks[0].header, blocks[0].comment] + blocks[0].atomLines + BlockLines(blocks[1..])
  }

  /** How the lines after the first block begin: its header at 0, its atom lines from 2. */
  lemma BlockLinesHead(blocks: seq<Block>, tail: seq<string>)
    requires |blocks| > 0
    ensures var lines := BlockLines(blocks) + tail;
      var n := |blocks[0].atomLines|;
      |lines| >= 2 + n &&
      lines[0] == blocks[0].header &&
      lines[2..2 + n] == blocks[0].atomLines &&
      lines[2 + n..] == BlockLines(blocks[1..]) + tail
  {
    var b := blocks[0];
    var head := [b.header, b.comment] + b.atomLines;
    var rest := BlockLines(blocks[1..]) + tail;
    assert BlockLines(blocks) + tail == head + rest;
    ConcatParts(head, rest);
    assert head[2..] == b.atomLines;
  }

  lemma ConcatParts<T>(head: seq<T>, rest: seq<T>)
    requires |head| >= 2
    ensures (head + rest)[0] == head[0]
    ensures (head + rest)[2..|head|] == head[2..]
    ensures (head + rest)[|head|..] == rest
  {
  }
}
