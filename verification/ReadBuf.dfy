/** The buffer a caller passes to `poll_read`. */
module ReadBufs {
  import opened Common

  /** The caller's buffer: `filled` is a prefix of a buffer of fixed capacity. */
  class ReadBuf {
    const capacity: nat
    var filled: seq<byte>

    ghost predicate Valid()
      reads this
    {
      |filled| <= capacity
    }

    constructor (capacity: nat)
      ensures Valid() && this.capacity == capacity && filled == []
    {
      this.capacity := capacity;
      this.filled := [];
    }

    function Remaining(): (room: nat)
      requires Valid()
      reads this
      ensures |filled| + room == capacity
    {
      capacity - |filled|
    }

    method PutSlice(src: seq<byte>)
      requires Valid() && |src| <= Remaining()
      modifies this
      ensures Valid() && filled == old(filled) + src
    {
      filled := filled + src;
    }
  }
}
