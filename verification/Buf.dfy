/** The owned buffer behind the adapters: bytes, and a position before which they are consumed. */
module Bufs {
  import opened Common
  import opened ReadBufs

  class Buf {
    var buf: seq<byte>
    var pos: nat

    /** A consumed buffer is always reset, so an empty one starts at position 0. */
    ghost predicate Valid()
      reads this
    {
      pos <= |buf| && (pos == |buf| ==> pos == 0)
    }

    ghost function Contents(): seq<byte>
      requires Valid()
      reads this
    {
      buf[pos..]
    }

    constructor ()
      ensures Valid() && Contents() == []
    {
      buf := [];
      pos := 0;
    }

    function Len(): (n: nat)
      requires Valid()
      reads this
      ensures n == |Contents()|
    {
      |buf| - pos
    }

    predicate IsEmpty()
      requires Valid()
      reads this
      ensures IsEmpty() <==> Contents() == []
    {
      Len() == 0
    }

    /** Moves as many bytes as fit from the front of the buffer to the destination. */
    method CopyTo(dst: ReadBuf) returns (n: nat)
      requires Valid() && dst.Valid()
      modifies this, dst
      ensures Valid() && dst.Valid()
      ensures n == Min(|old(Contents())|, old(dst.Remaining()))
      ensures dst.filled == old(dst.filled) + old(Contents())[..n]
      ensures Contents() == old(Contents())[n..]
    {
      n := Min(Len(), dst.Remaining());
      dst.PutSlice(buf[pos..][..n]);
      pos := pos + n;
      if pos == |buf| {
        buf := [];
        pos := 0;
      }
    }

    method CopyFrom(src: seq<byte>, maxBufSize: nat) returns (n: nat)
      requires Valid() && IsEmpty()
      modifies this
      ensures Valid() && pos == 0 && n == Min(|src|, maxBufSize) && Contents() == src[..n]
    {
      n := Min(|src|, maxBufSize);
      buf := buf + src[..n];
    }

    /** The end of a read of at most `maxBufSize` bytes into the empty buffer; none means that it failed. */
    method EndRead(res: Option<seq<byte>>, maxBufSize: nat)
      requires Valid() && IsEmpty() && (res.Some? ==> |res.value| <= maxBufSize)
      modifies this
      ensures Valid() && pos == 0 && Contents() == if res.Some? then res.value else []
    {
      buf := if res.Some? then res.value else [];
    }

    /** The end of a write of the whole buffer, however many bytes were taken. */
    method EndWrite()
      requires Valid() && pos == 0
      modifies this
      ensures Valid() && Contents() == []
    {
      buf := [];
    }

    /** Drops what is held and returns minus its length. */
    method DiscardRead() returns (moved: int)
      requires Valid()
      modifies this
      ensures Valid() && Contents() == [] && moved == -|old(Contents())|
    {
      moved := -(|buf| - pos);
      pos := 0;
      buf := [];
    }

    /** Gathers slices in order, up to a limit. */
    method CopyFromBufs(bufs: seq<seq<byte>>, maxBufSize: nat) returns (n: nat)
      requires Valid() && IsEmpty()
      modifies this
      ensures Valid() && pos == 0
      ensures n == Min(|Concat(bufs)|, maxBufSize) && Contents() == Concat(bufs)[..n]
    {
      var rem, i := maxBufSize, 0;
      while i < |bufs| && rem != 0
        invariant 0 <= i <= |bufs| && pos == 0 && rem <= maxBufSize
        invariant |buf| == maxBufSize - rem == Min(|Concat(bufs[..i])|, maxBufSize)
        invariant buf == Concat(bufs[..i])[..|buf|]
      {
        var len := Min(|bufs[i]|, rem);
        assert bufs[..i + 1][..i] == bufs[..i];
        buf := buf + bufs[i][..len];
        rem := rem - len;
        i := i + 1;
      }
      ConcatPrefix(bufs, i);
      assert i == |bufs| ==> bufs[..i] == bufs;
      n := maxBufSize - rem;
    }
  }

  function Concat(bufs: seq<seq<byte>>): seq<byte> {
    if bufs == [] then [] else Concat(bufs[..|bufs| - 1]) + bufs[|bufs| - 1]
  }

  lemma {:induction false} ConcatPrefix(bufs: seq<seq<byte>>, i: nat)
    requires i <= |bufs|
    ensures Concat(bufs[..i]) <= Concat(bufs)
    decreases |bufs|
  {
    if i < |bufs| {
      ConcatPrefix(bufs[..|bufs| - 1], i);
      assert bufs[..|bufs| - 1][..i] == bufs[..i];
    } else {
      assert bufs[..i] == bufs;
    }
  }
}
