/** The input side of class Stream: a finite sequence of bytes, then nothing until the timeout. */
module ByteStream {
  import opened Common

  /** A stream that holds `data` and delivers it until it runs dry. */
  class Stream {
    const data: seq<Byte>
    var pos: nat

    ghost predicate Valid() reads this {
      pos <= |data|
    }

    constructor (data: seq<Byte>)
      ensures Valid() && this.data == data && pos == 0
    {
      this.data, pos := data, 0;
    }

    /** The next byte, or -1 at the end. */
    method TimedRead() returns (c: int)
      requires Valid()
      modifies this
      ensures Valid()
      ensures old(pos) == |data| ==> c == -1 && pos == old(pos)
      ensures old(pos) < |data| ==> c == data[old(pos)] >= 0 && pos == old(pos) + 1
    {
      if pos == |data| { return -1; }
      c := data[pos];
      pos := pos + 1;
    }

    /** The next byte without consuming it, or -1 at the end. */
    method TimedPeek() returns (c: int)
      requires Valid()
      ensures c == PeekAt(data, pos)
    {
      c := if pos == |data| then -1 else data[pos];
    }
  }

  /** What a peek delivers at a position. */
  function PeekAt(data: seq<Byte>, pos: nat): int {
    if pos < |data| then data[pos] else -1
  }
}
