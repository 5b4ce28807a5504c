/**
 `SimpleAsyncReadHolder` and `SimpleAsyncWriteHolder`: the inner reader or writer and an owned buffer move into a
 future while a call is in flight, and back when it is done.
 */
module SimpleAsyncIo {
  import opened Common
  import opened ReadBufs
  import opened Bufs
  import opened AdapterRuns

  /** A busy state stands for the future that owns the buffer and the inner reader or writer. */
  datatype State = Idle(cell: Option<Buf>) | Busy(buf: Buf, max: nat)

  class SimpleAsyncReadHolder {
    var inner: bool
    var state: State
    ghost const owned: Buf
    ghost var produced: seq<byte>
    ghost var delivered: seq<byte>

    /** The buffer is in its cell or in the future, and the inner reader is at its place exactly when idle. */
    ghost predicate Valid()
      reads this, owned
    {
      && owned.Valid()
      && match state
         case Idle(cell) => inner && cell == Some(owned)
         case Busy(buf, _) => !inner && buf == owned && buf.Contents() == []
    }

    ghost function View(): Reader
      requires Valid()
      reads this, owned
    {
      Reader(if state.Idle? then Buffered(owned.Contents()) else Reading(state.max), produced, delivered)
    }

    constructor ()
      ensures Valid() && View() == NEW_READER && fresh(owned)
    {
      var buf := new Buf();
      inner := true;
      state := Idle(Some(buf));
      owned := buf;
      produced, delivered := [], [];
    }

    /** The caller gets the next bytes in order, exactly as the value-level poll says. */
    method PollRead(dst: ReadBuf, reply: ReadReply) returns (answer: ReadAnswer)
      requires Valid() && dst.Valid()
      modifies this, owned, dst
      ensures Valid() && dst.Valid()
      ensures (View(), answer) == PollReader(old(View()), old(dst.Remaining()), reply)
      ensures old(delivered) <= delivered && dst.filled == old(dst.filled) + delivered[|old(delivered)|..]
    {
      if state.Idle? {
        var buf := state.cell.value;
        if !buf.IsEmpty() {
          answer := Deliver(buf, dst);
          return;
        }
        inner := false;
        state := Busy(buf, Min(dst.Remaining(), DEFAULT_MAX_BUF_SIZE));
      }
      answer := PollBusy(dst, reply);
    }

    /** Hands buffered bytes to the caller. */
    method Deliver(buf: Buf, dst: ReadBuf) returns (answer: ReadAnswer)
      requires Valid() && state.Idle? && buf == owned && dst.Valid()
      modifies this`delivered, owned, dst
      ensures Valid() && dst.Valid()
      ensures (View(), answer) == AdapterRuns.Deliver(old(View()), old(owned.Contents()), old(dst.Remaining()))
      ensures old(delivered) <= delivered && dst.filled == old(dst.filled) + delivered[|old(delivered)|..]
    {
      ghost var bytes := buf.Contents();
      var n := buf.CopyTo(dst);
      delivered := delivered + bytes[..n];
      answer := Ready(n);
    }

    /** Polls the future of the read in flight. */
    method PollBusy(dst: ReadBuf, reply: ReadReply) returns (answer: ReadAnswer)
      requires Valid() && dst.Valid() && state.Busy?
      modifies this, owned, dst
      ensures Valid() && dst.Valid()
      ensures (View(), answer) == PollReader(old(View()), old(dst.Remaining()), reply)
      ensures old(delivered) <= delivered && dst.filled == old(dst.filled) + delivered[|old(delivered)|..]
    {
      var buf, max := state.buf, state.max;
      match reply {
        case NotReady =>
          answer := Pending;
        case Fails =>
          buf.EndRead(None, max);
          inner := true;
          state := Idle(Some(buf));
          answer := ReadAnswer.Failed;
        case Gives(bytes) =>
          var got := bytes[..Min(|bytes|, max)];
          buf.EndRead(Some(got), max);
          inner := true;
          state := Idle(Some(buf));
          produced := produced + got;
          answer := Deliver(buf, dst);
      }
    }
  }

  class SimpleAsyncWriteHolder {
    var inner: bool
    var state: State
    var flushBusy: bool
    var shutdownBusy: bool
    /** Whether the mutex around the fields above is poisoned. */
    var poisoned: bool
    ghost const owned: Buf
    ghost var accepted: seq<byte>

    ghost predicate Valid()
      reads this, owned
    {
      && owned.Valid() && owned.pos == 0
      && match state
         case Idle(cell) => poisoned || (cell == Some(owned) && owned.Contents() == [])
         case Busy(buf, _) => buf == owned
    }

    ghost function View(): Writer
      requires Valid()
      reads this, owned
    {
      Writer(inner, if state.Idle? then None else Some(owned.Contents()), flushBusy, shutdownBusy, accepted,
             poisoned)
    }

    constructor ()
      ensures Valid() && View() == NEW_WRITER && fresh(owned)
    {
      var buf := new Buf();
      inner := true;
      state := Idle(Some(buf));
      flushBusy, shutdownBusy, poisoned := false, false, false;
      owned := buf;
      accepted := [];
    }

    /** Starts a write of a copy of `src` or goes on with the one in flight. */
    method PollWrite(src: seq<byte>, reply: WriteReply) returns (answer: WriteAnswer)
      requires Valid()
      modifies this, owned
      ensures Valid() && (View(), answer) == PollWriter(old(View()), Write(src), reply)
    {
      if poisoned {
        return Panicked;
      }
      if state.Idle? {
        var buf := state.cell.value;
        state := Idle(None);
        var n := buf.CopyFrom(src, DEFAULT_MAX_BUF_SIZE);
        if !inner {
          poisoned := true;
          return Panicked;
        }
        inner := false;
        state := Busy(buf, n);
      }
      match reply {
        case Waits =>
          answer := WPending;
        case Errs =>
          EndWrite(0);
          answer := WFailed;
        case Takes(count) =>
          var n := Min(count, state.buf.Len());
          EndWrite(n);
          answer := WReady(n);
      }
    }

    method EndWrite(n: nat)
      requires Valid() && state.Busy? && n <= |owned.Contents()|
      modifies this`inner, this`state, this`accepted, owned
      ensures Valid() && state.Idle? && inner && accepted == old(accepted) + old(owned.Contents())[..n]
      ensures n == 0 ==> accepted == old(accepted)
    {
      accepted := accepted + owned.Contents()[..n];
      state.buf.EndWrite();
      state := Idle(Some(state.buf));
      inner := true;
    }

    method PollFlush(reply: WriteReply) returns (answer: WriteAnswer)
      requires Valid()
      modifies this`inner, this`flushBusy, this`poisoned
      ensures Valid() && (View(), answer) == PollWriter(old(View()), Flush, reply)
    {
      if poisoned {
        return Panicked;
      }
      if !flushBusy {
        if !inner {
          poisoned := true;
          return Panicked;
        }
        inner := false;
        flushBusy := true;
      }
      if reply.Waits? {
        return WPending;
      }
      flushBusy := false;
      inner := true;
      answer := if reply.Errs? then WFailed else WReady(0);
    }

    method PollShutdown(reply: WriteReply) returns (answer: WriteAnswer)
      requires Valid()
      modifies this`inner, this`shutdownBusy, this`poisoned
      ensures Valid() && (View(), answer) == PollWriter(old(View()), Shutdown, reply)
    {
      if poisoned {
        return Panicked;
      }
      if !shutdownBusy {
        if !inner {
          poisoned := true;
          return Panicked;
        }
        inner := false;
        shutdownBusy := true;
      }
      if reply.Waits? {
        return WPending;
      }
      shutdownBusy := false;
      inner := true;
      answer := if reply.Errs? then WFailed else WReady(0);
    }
  }
}
