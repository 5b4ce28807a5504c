/**
 The cooperative bidirectional copy: a buffered, budgeted and resumable loop for each direction, driven by one poll
 function with an idle timer.  Readers, writers and wakers are arbitrary: their contracts are those of `AsyncRead`,
 `AsyncWrite` and `Waker`, and every outcome is recorded in a trace.
 */
module CopyBidirectional {
  import opened Common
  import opened CopyFlows
  import opened CopyHelds

  const MAX_COPY_OPS_PER_POLL: nat := 128

  datatype Poll = Pending | Failed | Ready

  /** What was received is a prefix of the input, and the end of file comes only at its end. */
  ghost predicate Follows(f: Flow, input: seq<byte>) {
    f.received <= input && (f.ended ==> f.received == input)
  }

  /**
   The reader, the writer and the waker as one direction sees them; `input` is all the reader will ever have to give.
   */
  class Link {
    const size: nat
    const input: seq<byte>
    var trace: seq<Event>
    var flow: Flow

    ghost predicate Valid()
      reads this
    {
      flow == FlowOf(trace, size) && Follows(flow, input)
    }

    constructor (size: nat, input: seq<byte>)
      ensures Valid() && trace == [] && flow == START && this.size == size && this.input == input
    {
      this.size := size;
      this.input := input;
      this.trace := [];
      this.flow := START;
    }

    method Record(e: Event)
      requires Valid() && Follows(Next(flow, e, size), input)
      modifies this
      ensures Valid() && trace == old(trace) + [e] && flow == Next(old(flow), e, size)
    {
      assert (trace + [e])[..|trace|] == trace;
      trace := trace + [e];
      flow := Next(flow, e, size);
    }

    /** The reader appends the next bytes of its input behind the filled part of the buffer, or none at its end. */
    method PollRead(buf: array<byte>, filled: nat) returns (r: Poll, bytes: seq<byte>)
      requires Valid() && filled < buf.Length
      modifies this, buf
      ensures Valid() && filled + |bytes| <= buf.Length && buf[..filled + |bytes|] == old(buf[..filled]) + bytes
      ensures !r.Ready? ==> bytes == []
      ensures var room := buf.Length - filled;
              flow == Next(old(flow), if r.Pending? then ReadPending(room) else if r.Failed? then ReadFailed(room)
                                      else if bytes == [] then Eof(room) else Got(room, bytes), size)
    {
      var room := buf.Length - filled;
      bytes := [];
      if * {
        Record(ReadPending(room));
        r := Pending;
      } else if * {
        Record(ReadFailed(room));
        r := Failed;
      } else {
        bytes := NextBytes(room);
        Append(buf, filled, bytes);
        Record(if bytes == [] then Eof(room) else Got(room, bytes));
        r := Ready;
      }
    }

    /** The next bytes of the input, as many as it likes but at least one, or none at its end. */
    method NextBytes(room: nat) returns (bytes: seq<byte>)
      requires Valid() && room > 0
      ensures |bytes| <= room && flow.received + bytes <= input && (bytes == [] ==> flow.received == input)
    {
      var taken := |flow.received|;
      assert taken <= |input|;
      bytes := [];
      if taken < |input| {
        var n: int := *;
        if n <= 0 || n > room || n > |input| - taken {
          n := 1;
        }
        bytes := input[taken..taken + n];
        assert input[..taken + n] == input[..taken] + bytes;
      }
    }

    method Append(buf: array<byte>, filled: nat, bytes: seq<byte>)
      requires filled + |bytes| <= buf.Length
      modifies buf
      ensures buf[..filled + |bytes|] == old(buf[..filled]) + bytes
    {
      forall i | 0 <= i < |bytes| {
        buf[filled + i] := bytes[i];
      }
    }

    /** The writer accepts a prefix of the slice, possibly nothing. */
    method PollWrite(src: seq<byte>) returns (r: Poll, len: nat)
      requires Valid() && src != []
      modifies this
      ensures Valid() && len <= |src|
      ensures flow == Next(old(flow), if r.Pending? then WritePending(src) else if r.Failed? then WriteFailed(src)
                                      else if len == 0 then PutNothing(src) else Put(src, len), size)
    {
      len := 0;
      if * {
        Record(WritePending(src));
        r := Pending;
      } else if * {
        Record(WriteFailed(src));
        r := Failed;
      } else {
        var n: nat :| n <= |src|;
        len := n;
        Record(if len == 0 then PutNothing(src) else Put(src, len));
        r := Ready;
      }
    }

    method PollFlush() returns (r: Poll)
      requires Valid()
      modifies this
      ensures Valid()
      ensures flow == Next(old(flow), if r.Ready? then Flushed else if r.Pending? then FlushPending else FlushFailed,
                           size)
    {
      if * {
        r := Ready;
      } else if * {
        r := Pending;
      } else {
        r := Failed;
      }
      Record(if r.Ready? then Flushed else if r.Pending? then FlushPending else FlushFailed);
    }

    method PollShutdown() returns (r: Poll)
      requires Valid()
      modifies this
      ensures Valid()
      ensures flow == Next(old(flow), if r.Ready? then Shut else if r.Pending? then ShutPending else ShutFailed, size)
    {
      if * {
        r := Ready;
      } else if * {
        r := Pending;
      } else {
        r := Failed;
      }
      Record(if r.Ready? then Shut else if r.Pending? then ShutPending else ShutFailed);
    }

    method Wake()
      requires Valid()
      modifies this
      ensures Valid() && flow == Next(old(flow), Woken, size)
    {
      Record(Woken);
    }
  }

  /** Takes one operation from the budget; when none is left the copy wakes itself and yields. */
  method ConsumeCopyBudget(link: Link, ops: nat) returns (go: bool, ops': nat)
    requires link.Valid() && ops > 0
    modifies link
    ensures link.Valid() && ops' == ops - 1 && (go <==> ops' > 0)
    ensures link.flow == if go then old(link.flow) else Next(old(link.flow), Woken, link.size)
  {
    ops' := ops - 1;
    go := ops' != 0;
    if !go {
      link.Wake();
    }
  }

  /** What a read makes of buffer and flow, for each outcome. */
  lemma FillAccounts(r: Poll, b: Held, f: Flow, g: Flow, bytes: seq<byte>, p: bool, p': bool, used: int, size: nat)
    requires Tracks(b, g) && Accounts(f, g, p, p', used) && (!r.Ready? ==> bytes == [])
    requires !b.readDone && size == b.size && b.cap < size && |bytes| <= size - b.cap
    ensures var room := size - b.cap;
            var h := Next(g, if r.Pending? then ReadPending(room) else if r.Failed? then ReadFailed(room)
                             else if bytes == [] then Eof(room) else Got(room, bytes), size);
            var b' := if r.Ready? then b.(readDone := bytes == [], cap := b.cap + |bytes|, held := b.held + bytes)
                      else b;
            && Accounts(f, h, p, p' || bytes != [], used + if r.Ready? then 1 else 0)
            && (if r.Failed? then h.broken else Tracks(b', h))
            && (r.Pending? ==> h.readWaits > f.readWaits && h.readWaits > g.readWaits) && Reads(g, h)
            && h.wakes == g.wakes && h.writeWaits == g.writeWaits
  {
    if r.Ready? {
      FillStep(b, f, g, bytes, p, p', used, size);
    } else {
      NoFillStep(b, f, g, p, p', used, size);
    }
  }

  /** What a flush of the drained buffer makes of buffer and flow, for each outcome. */
  lemma FlushAccounts(r: Poll, b: Held, f: Flow, g: Flow, p: bool, p': bool, used: int, size: nat)
    requires Tracks(b, g) && Accounts(f, g, p, p', used) && b.pos == b.cap && (b.needFlush || b.readDone)
    ensures var h := Next(g, if r.Ready? then Flushed else if r.Pending? then FlushPending else FlushFailed, size);
            && Accounts(f, h, p, p' || r.Ready?, used + if r.Ready? && !b.readDone then 1 else 0)
            && h.wakes == g.wakes && h.readWaits == g.readWaits
            && match r
               case Failed => h.broken
               case Pending => Tracks(b, h) && WillWake(f, h)
               case Ready => if b.readDone then Delivered(h, b.amt) && !h.closed
                             else Tracks(b.(needFlush := false), h)
  {
    FlushStep(b, f, g, p, p', used, size);
    if b.readDone {
      FinalFlushDelivers(b, g, size);
    }
  }

  lemma DropFromAppend(a: seq<byte>, b: seq<byte>, pos: nat)
    requires pos <= |a|
    ensures (a + b)[pos..] == a[pos..] + b
  {
  }

  class CopyBuffer {
    var readDone: bool
    var needFlush: bool
    var pos: nat
    var cap: nat
    var amt: nat
    const buf: array<byte>

    ghost function View(): Held
      reads this, buf
    {
      Held(readDone, needFlush, pos, cap, amt, if pos <= cap <= buf.Length then buf[..cap][pos..] else [], buf.Length)
    }

    constructor (bufSize: nat)
      requires bufSize > 0
      ensures fresh(buf) && buf.Length == bufSize && Tracks(View(), START)
    {
      readDone := false;
      needFlush := false;
      pos := 0;
      cap := 0;
      amt := 0;
      buf := new byte[bufSize](_ => 0);
    }

    /** The read into all the room behind what is held: the new bytes come there, and those held stay as they are. */
    method PollFillBuf(link: Link, progress: bool) returns (r: Poll, progress': bool, ghost bytes: seq<byte>)
      requires link.Valid() && pos <= cap < buf.Length
      modifies this, buf, link
      ensures link.Valid() && |bytes| <= buf.Length - old(cap) && (!r.Ready? ==> bytes == [])
      ensures var room := buf.Length - old(cap);
              link.flow == Next(old(link.flow), if r.Pending? then ReadPending(room)
                                                else if r.Failed? then ReadFailed(room)
                                                else if bytes == [] then Eof(room) else Got(room, bytes), link.size)
      ensures progress' <==> progress || bytes != []
      ensures View() == if r.Ready?
                        then old(View()).(readDone := bytes == [], cap := old(cap) + |bytes|,
                                          held := old(View()).held + bytes)
                        else old(View())
    {
      ghost var filled := buf[..cap];
      var more;
      r, more := link.PollRead(buf, cap);
      bytes := more;
      progress' := progress;
      if r.Ready? {
        progress' := progress || |more| != 0;
        TakeFilled(|more|, filled, bytes);
      } else {
        assert buf[..cap] == filled;
      }
    }

    /** Takes `len` bytes that were put behind those held. */
    method TakeFilled(len: nat, ghost filled: seq<byte>, ghost bytes: seq<byte>)
      requires pos <= cap == |filled| && len == |bytes| && cap + len <= buf.Length && buf[..cap + len] == filled + bytes
      modifies this`readDone, this`cap
      ensures View() == Held(bytes == [], needFlush, pos, old(cap) + len, amt, filled[pos..] + bytes, buf.Length)
    {
      DropFromAppend(filled, bytes, pos);
      readDone := len == 0;
      cap := cap + len;
    }

    /** A read, accounted for from where the caller started: at the flow `f` with the flag `p`. */
    method Fill(link: Link, ghost f: Flow, ghost p: bool, progress: bool, ghost used: int)
      returns (r: Poll, progress': bool)
      requires link.Valid() && link.size == buf.Length && Tracks(View(), link.flow)
      requires cap < buf.Length && !readDone && Accounts(f, link.flow, p, progress, used)
      modifies this, buf, link
      ensures link.Valid() && Accounts(f, link.flow, p, progress', used + if r.Ready? then 1 else 0)
      ensures if r.Failed? then link.flow.broken else Tracks(View(), link.flow)
      ensures r.Pending? ==> link.flow.readWaits > f.readWaits && View() == old(View())
      ensures r.Pending? ==> link.flow.readWaits > old(link.flow.readWaits)
      ensures Reads(old(link.flow), link.flow)
      ensures link.flow.wakes == old(link.flow.wakes) && link.flow.writeWaits == old(link.flow.writeWaits)
    {
      ghost var b, g, bytes := View(), link.flow, [];
      r, progress', bytes := PollFillBuf(link, progress);
      FillAccounts(r, b, f, g, bytes, p, progress, used, link.size);
    }

    /** Charges one operation for the step just made. */
    method ChargeStep(link: Link, ghost f: Flow, ghost p: bool, progress: bool, ghost used: int, ops: nat)
      returns (r: Poll, ops': nat)
      requires link.Valid() && Tracks(View(), link.flow) && Accounts(f, link.flow, p, progress, used) && ops > 0
      modifies link
      ensures link.Valid() && Tracks(View(), link.flow) && Accounts(f, link.flow, p, progress, used)
      ensures Yields(old(link.flow), link.flow, ops') && link.flow == old(link.flow).(wakes := link.flow.wakes)
      ensures ops' == ops - 1 && !r.Failed? && (r.Ready? ==> ops' > 0) && (r.Pending? ==> WillWake(f, link.flow))
    {
      WakeTracks(View(), link.flow, progress, link.size);
      AccountsTransitive(f, link.flow, Next(link.flow, Woken, link.size), p, progress, progress, used, 0);
      var go;
      go, ops' := ConsumeCopyBudget(link, ops);
      r := if go then Ready else Pending;
    }

    /** Offers the writer all that is held; while the writer is not ready, the room left is used to read ahead once. */
    method PollWriteBuf(link: Link, progress: bool, ops: nat) returns (r: Poll, len: nat, progress': bool, ops': nat)
      requires link.Valid() && link.size == buf.Length && Tracks(View(), link.flow)
      requires pos < cap && ops > 0
      modifies this, buf, link
      ensures link.Valid()
      ensures Yields(old(link.flow), link.flow, ops')
      ensures r.Pending? ==> Tracks(View(), link.flow) && WillWake(old(link.flow), link.flow)
      ensures r.Failed? ==> link.flow.broken
      ensures !r.Ready? ==> Accounts(old(link.flow), link.flow, progress, progress', ops - ops')
      ensures r.Ready? ==> View() == old(View()) && ops' == ops && len <= cap - pos
      ensures r.Ready? ==> (progress' <==> progress || len > 0)
      ensures !r.Ready? ==>
                var waits := Next(old(link.flow), WritePending(old(View().held)), link.size);
                || link.flow == Next(old(link.flow), WriteFailed(old(View().held)), link.size)
                || (link.flow.writeWaits == waits.writeWaits
                    && if old(!readDone && cap < buf.Length) then Reads(waits, link.flow) else link.flow == waits)
      ensures r.Ready? ==> link.flow == Next(old(link.flow), if len == 0 then PutNothing(View().held)
                                                             else Put(View().held, len), link.size)
    {
      ghost var f := link.flow;
      NoPutTracks(View(), f, progress, link.size);
      r, len := link.PollWrite(buf[..cap][pos..]);
      progress', ops' := progress, ops;
      if r.Ready? {
        progress' := progress || len > 0;
      } else if r.Pending? {
        r, progress', ops' := ReadWhileWaiting(link, f, progress, ops);
      }
    }

    /** The writer is not ready: reads ahead if there is room and the end of file was not read. */
    method ReadWhileWaiting(link: Link, ghost f: Flow, progress: bool, ops: nat)
      returns (r: Poll, progress': bool, ops': nat)
      requires link.Valid() && link.size == buf.Length && Tracks(View(), link.flow) && ops > 0
      requires Accounts(f, link.flow, progress, progress, 0) && link.flow.writeWaits > f.writeWaits
      modifies this, buf, link
      ensures link.Valid() && !r.Ready? && Accounts(f, link.flow, progress, progress', ops - ops')
      ensures Yields(old(link.flow), link.flow, ops')
      ensures if old(!readDone && cap < buf.Length) then Reads(old(link.flow), link.flow)
              else link.flow == old(link.flow)
      ensures link.flow.writeWaits == old(link.flow.writeWaits)
      ensures r.Pending? ==> Tracks(View(), link.flow) && WillWake(f, link.flow)
      ensures r.Failed? ==> link.flow.broken
    {
      if !readDone && cap < buf.Length {
        r, progress', ops' := ReadAhead(link, f, progress, ops);
      } else {
        r, progress', ops' := Pending, progress, ops;
      }
    }

    /** The read made while the writer is not ready. */
    method ReadAhead(link: Link, ghost f: Flow, progress: bool, ops: nat) returns (r: Poll, progress': bool, ops': nat)
      requires link.Valid() && link.size == buf.Length && Tracks(View(), link.flow)
      requires cap < buf.Length && !readDone && ops > 0
      requires Accounts(f, link.flow, progress, progress, 0) && link.flow.writeWaits > f.writeWaits
      modifies this, buf, link
      ensures link.Valid() && !r.Ready? && Accounts(f, link.flow, progress, progress', ops - ops')
      ensures Yields(old(link.flow), link.flow, ops')
      ensures Reads(old(link.flow), link.flow) && link.flow.writeWaits == old(link.flow.writeWaits)
      ensures r.Pending? ==> Tracks(View(), link.flow) && WillWake(f, link.flow)
      ensures r.Failed? ==> link.flow.broken
    {
      r, progress' := Fill(link, f, progress, progress, 0);
      ops' := ops;
      if r.Ready? {
        r, ops' := ChargeStep(link, f, progress, progress', 1, ops);
        r := Pending;
      }
    }

    /** The first part of an iteration: read if there is room, or flush and wait if there is nothing else to do. */
    method FillOrIdle(link: Link, ghost f: Flow, ghost p: bool, progress: bool, ghost used: int, ops: nat)
      returns (r: Poll, progress': bool, ops': nat)
      requires link.Valid() && link.size == buf.Length && Tracks(View(), link.flow) && ops > 0
      requires Accounts(f, link.flow, p, progress, used)
      modifies this, buf, link
      ensures link.Valid() && Accounts(f, link.flow, p, progress', used + ops - ops')
      ensures Yields(old(link.flow), link.flow, ops')
      ensures r.Pending? ==> Tracks(View(), link.flow) && WillWake(f, link.flow)
      ensures r.Failed? ==> link.flow.broken
      ensures r.Ready? ==> Tracks(View(), link.flow) && 0 < ops' <= ops
      ensures r.Ready? && ops' == ops ==> cap == old(cap) && (pos < cap || cap == buf.Length || readDone)
      ensures if old(cap < buf.Length && !readDone) then Reads(old(link.flow), link.flow)
              else r.Ready? && link.flow == old(link.flow)
    {
      progress', ops' := progress, ops;
      r := Ready;
      if cap < buf.Length && !readDone {
        r, progress', ops' := ReadOrIdle(link, f, p, progress, used, ops);
      }
    }

    /** The read of an iteration. */
    method ReadOrIdle(link: Link, ghost f: Flow, ghost p: bool, progress: bool, ghost used: int, ops: nat)
      returns (r: Poll, progress': bool, ops': nat)
      requires link.Valid() && link.size == buf.Length && Tracks(View(), link.flow) && ops > 0
      requires cap < buf.Length && !readDone && Accounts(f, link.flow, p, progress, used)
      modifies this, buf, link
      ensures link.Valid() && Accounts(f, link.flow, p, progress', used + ops - ops')
      ensures Yields(old(link.flow), link.flow, ops') && Reads(old(link.flow), link.flow)
      ensures r.Pending? ==> Tracks(View(), link.flow) && WillWake(f, link.flow)
      ensures r.Failed? ==> link.flow.broken
      ensures r.Ready? ==> Tracks(View(), link.flow) && 0 < ops' <= ops
      ensures r.Ready? && ops' == ops ==> cap == old(cap) && pos < cap
    {
      ops' := ops;
      r, progress' := Fill(link, f, p, progress, used);
      if r.Ready? {
        r, ops' := ChargeStep(link, f, p, progress', used + 1, ops);
      } else if r.Pending? {
        if pos == cap {
          r, progress', ops' := FlushIdle(link, f, p, progress', used, ops);
        } else {
          r := Ready;
        }
      }
    }

    /** The reader has nothing and the buffer is drained: flush what was written, then wait. */
    method FlushIdle(link: Link, ghost f: Flow, ghost p: bool, progress: bool, ghost used: int, ops: nat)
      returns (r: Poll, progress': bool, ops': nat)
      requires link.Valid() && Tracks(View(), link.flow) && pos == cap && !readDone && ops > 0
      requires Accounts(f, link.flow, p, progress, used) && link.flow.readWaits > f.readWaits
      modifies this`needFlush, link
      ensures link.Valid() && !r.Ready? && Accounts(f, link.flow, p, progress', used + ops - ops')
      ensures Yields(old(link.flow), link.flow, ops') && link.flow.readWaits == old(link.flow.readWaits)
      ensures r.Pending? ==> Tracks(View(), link.flow) && WillWake(f, link.flow)
      ensures r.Failed? ==> link.flow.broken
    {
      progress', ops' := progress, ops;
      r := Pending;
      if needFlush {
        r, progress' := FlushHeld(link, f, p, progress, used);
        if r.Ready? {
          r, ops' := ChargeStep(link, f, p, true, used + 1, ops);
          r := Pending;
          IdleWillWake(View(), f, link.flow);
        }
      } else {
        IdleWillWake(View(), f, link.flow);
      }
    }

    /** The flush of what was written, before the end of file. */
    method FlushHeld(link: Link, ghost f: Flow, ghost p: bool, progress: bool, ghost used: int)
      returns (r: Poll, progress': bool)
      requires link.Valid() && Tracks(View(), link.flow) && pos == cap && !readDone && needFlush
      requires Accounts(f, link.flow, p, progress, used)
      modifies this`needFlush, link
      ensures link.Valid() && Accounts(f, link.flow, p, progress', used + if r.Ready? then 1 else 0)
      ensures if r.Failed? then link.flow.broken else Tracks(View(), link.flow)
      ensures r.Ready? ==> !needFlush && progress'
      ensures r.Pending? ==> WillWake(f, link.flow)
      ensures link.flow.wakes == old(link.flow.wakes) && link.flow.readWaits == old(link.flow.readWaits)
    {
      ghost var b, g := View(), link.flow;
      r := link.PollFlush();
      progress' := progress || r.Ready?;
      needFlush := !r.Ready?;
      FlushAccounts(r, b, f, g, p, progress, used, link.size);
    }

    /** The inner loop: writes until the buffer is drained or the direction has to wait. */
    method WriteOut(link: Link, ghost f: Flow, ghost p: bool, progress: bool, ghost used: int, ops: nat)
      returns (r: Poll, progress': bool, ops': nat)
      requires link.Valid() && link.size == buf.Length && Tracks(View(), link.flow) && ops > 0
      requires Accounts(f, link.flow, p, progress, used)
      modifies this, buf, link
      ensures link.Valid() && Accounts(f, link.flow, p, progress', used + ops - ops')
      ensures Yields(old(link.flow), link.flow, ops')
      ensures r.Pending? ==> Tracks(View(), link.flow) && WillWake(f, link.flow)
      ensures r.Failed? ==> link.flow.broken
      ensures r.Ready? ==> Tracks(View(), link.flow) && pos == cap == old(cap) && 0 < ops' <= ops
      ensures r.Ready? ==> readDone == old(readDone) && (old(pos) < old(cap) ==> ops' < ops)
    {
      progress', ops' := progress, ops;
      while pos < cap
        invariant link.Valid() && Tracks(View(), link.flow) && Accounts(f, link.flow, p, progress', used + ops - ops')
        invariant cap == old(cap) && readDone == old(readDone) && 0 < ops' <= ops
        invariant old(pos) < old(cap) && ops' == ops ==> pos == old(pos)
        invariant Yields(old(link.flow), link.flow, ops')
        decreases ops'
      {
        r, progress', ops' := WriteStep(link, f, p, progress', used + ops - ops', ops');
        if !r.Ready? {
          return;
        }
      }
      r := Ready;
    }

    /** One write, charged to the budget. */
    method WriteStep(link: Link, ghost f: Flow, ghost p: bool, progress: bool, ghost used: int, ops: nat)
      returns (r: Poll, progress': bool, ops': nat)
      requires link.Valid() && link.size == buf.Length && Tracks(View(), link.flow) && pos < cap && ops > 0
      requires Accounts(f, link.flow, p, progress, used)
      modifies this, buf, link
      ensures link.Valid() && Accounts(f, link.flow, p, progress', used + ops - ops')
      ensures Yields(old(link.flow), link.flow, ops')
      ensures r.Pending? ==> Tracks(View(), link.flow) && WillWake(f, link.flow)
      ensures r.Failed? ==> link.flow.broken
      ensures r.Ready? ==> Tracks(View(), link.flow) && 0 < ops' == ops - 1
      ensures r.Ready? ==> cap == old(cap) && readDone == old(readDone)
    {
      r, progress', ops' := Write(link, f, p, progress, used, ops);
      if r.Ready? {
        r, ops' := ChargeStep(link, f, p, true, used + 1, ops);
      }
    }

    /** One write, and an error if it takes nothing. */
    method Write(link: Link, ghost f: Flow, ghost p: bool, progress: bool, ghost used: int, ops: nat)
      returns (r: Poll, progress': bool, ops': nat)
      requires link.Valid() && link.size == buf.Length && Tracks(View(), link.flow) && pos < cap && ops > 0
      requires Accounts(f, link.flow, p, progress, used)
      modifies this, buf, link
      ensures link.Valid() && Yields(old(link.flow), link.flow, ops')
      ensures Accounts(f, link.flow, p, progress', used + if r.Ready? then 1 else ops - ops')
      ensures if r.Failed? then link.flow.broken else Tracks(View(), link.flow)
      ensures r.Pending? ==> WillWake(f, link.flow)
      ensures r.Ready? ==> progress' && ops' == ops && cap == old(cap) && readDone == old(readDone)
    {
      ghost var g := link.flow;
      var len;
      r, len, progress', ops' := PollWriteBuf(link, progress, ops);
      if !r.Ready? {
        AccountsTransitive(f, g, link.flow, p, progress, progress', used, ops - ops');
      } else {
        r := CountWrite(link, f, g, p, progress, used, len);
      }
    }

    /** The bookkeeping after a write of `len` bytes, which took the flow from `g` to where it is; none is an error. */
    method CountWrite(link: Link, ghost f: Flow, ghost g: Flow, ghost p: bool, ghost progress: bool, ghost used: int,
                      len: nat) returns (r: Poll)
      requires Tracks(View(), g) && Accounts(f, g, p, progress, used) && pos < cap && len <= cap - pos
      requires link.flow == Next(g, if len == 0 then PutNothing(View().held) else Put(View().held, len), link.size)
      modifies this`pos, this`amt, this`needFlush
      ensures if len == 0 then r.Failed? && link.flow.broken && Accounts(f, link.flow, p, progress, used)
              else r.Ready? && Tracks(View(), link.flow) && Accounts(f, link.flow, p, true, used + 1)
    {
      if len == 0 {
        PutNothingStep(View(), f, g, p, progress, used, link.size);
        r := Failed;
      } else {
        PutStep(View(), f, g, len, p, progress, used, link.size);
        Advance(len);
        r := Ready;
      }
    }

    /** Moves behind the written bytes. */
    method Advance(len: nat)
      requires pos + len <= cap <= buf.Length
      modifies this`pos, this`amt, this`needFlush
      ensures View() == old(View()).(pos := old(pos) + len, amt := old(amt) + len, needFlush := true,
                                     held := old(View()).held[len..])
    {
      assert buf[..cap][pos..][len..] == buf[..cap][pos + len..];
      pos := pos + len;
      amt := amt + len;
      needFlush := true;
    }

    /** The end of file was read and everything is written: flush and report the count. */
    method FlushFinal(link: Link, ghost f: Flow, ghost p: bool, progress: bool, ghost used: int)
      returns (r: Poll, progress': bool)
      requires link.Valid() && Tracks(View(), link.flow) && pos == cap && readDone
      requires Accounts(f, link.flow, p, progress, used)
      modifies link
      ensures link.Valid() && Accounts(f, link.flow, p, progress', used)
      ensures link.flow.wakes == old(link.flow.wakes)
      ensures r.Pending? ==> Tracks(View(), link.flow) && WillWake(f, link.flow)
      ensures r.Failed? ==> link.flow.broken
      ensures r.Ready? ==> Delivered(link.flow, amt) && !link.flow.closed
    {
      ghost var b, g := View(), link.flow;
      r := link.PollFlush();
      progress' := progress || r.Ready?;
      FlushAccounts(r, b, f, g, p, progress, used, link.size);
    }

    /** One iteration of the copy loop; it either answers or leaves the direction ready for the next one. */
    method CopyOnce(link: Link, ghost f: Flow, ghost p: bool, progress: bool, ghost used: int, ops: nat)
      returns (r: Poll, again: bool, progress': bool, ops': nat)
      requires link.Valid() && link.size == buf.Length && Tracks(View(), link.flow) && ops > 0
      requires Accounts(f, link.flow, p, progress, used)
      modifies this, buf, link
      ensures link.Valid() && Accounts(f, link.flow, p, progress', used + ops - ops')
      ensures Yields(old(link.flow), link.flow, ops')
      ensures again ==> Tracks(View(), link.flow) && 0 < ops' <= ops && (ops' < ops || cap < old(cap))
      ensures !again && r.Pending? ==> Tracks(View(), link.flow) && WillWake(f, link.flow)
      ensures !again && r.Failed? ==> link.flow.broken
      ensures !again && r.Ready? ==> Delivered(link.flow, amt) && !link.flow.closed
    {
      again := false;
      r, progress', ops' := FillOrIdle(link, f, p, progress, used, ops);
      if r.Ready? {
        r, again, progress', ops' := WriteAndEnd(link, f, p, progress', used + ops - ops', ops');
      }
    }

    /** The rest of an iteration, after its read. */
    method WriteAndEnd(link: Link, ghost f: Flow, ghost p: bool, progress: bool, ghost used: int, ops: nat)
      returns (r: Poll, again: bool, progress': bool, ops': nat)
      requires link.Valid() && link.size == buf.Length && Tracks(View(), link.flow) && ops > 0
      requires Accounts(f, link.flow, p, progress, used)
      modifies this, buf, link
      ensures link.Valid() && Accounts(f, link.flow, p, progress', used + ops - ops')
      ensures Yields(old(link.flow), link.flow, ops')
      ensures again ==> Tracks(View(), link.flow) && 0 < ops' <= ops && cap == 0 && !old(readDone)
      ensures again && old(pos) < old(cap) ==> ops' < ops
      ensures !again && r.Pending? ==> Tracks(View(), link.flow) && WillWake(f, link.flow)
      ensures !again && r.Failed? ==> link.flow.broken
      ensures !again && r.Ready? ==> Delivered(link.flow, amt) && !link.flow.closed
    {
      again := false;
      r, progress', ops' := WriteOut(link, f, p, progress, used, ops);
      if r.Ready? {
        r, again, progress' := EndIteration(link, f, p, progress', used + ops - ops');
      }
    }

    /** The end of an iteration: reuse the drained buffer from its start, and finish if the end of file was read. */
    method EndIteration(link: Link, ghost f: Flow, ghost p: bool, progress: bool, ghost used: int)
      returns (r: Poll, again: bool, progress': bool)
      requires link.Valid() && Tracks(View(), link.flow) && pos == cap && Accounts(f, link.flow, p, progress, used)
      modifies this`pos, this`cap, link
      ensures link.Valid() && Accounts(f, link.flow, p, progress', used) && cap == 0
      ensures link.flow.wakes == old(link.flow.wakes)
      ensures again ==> Tracks(View(), link.flow) && !readDone
      ensures !again ==> readDone
      ensures !again && r.Pending? ==> Tracks(View(), link.flow) && WillWake(f, link.flow)
      ensures !again && r.Failed? ==> link.flow.broken
      ensures !again && r.Ready? ==> Delivered(link.flow, amt) && !link.flow.closed
    {
      ResetTracks(View(), link.flow);
      pos, cap := 0, 0;
      again := !readDone;
      r, progress' := Pending, progress;
      if readDone {
        r, progress' := FlushFinal(link, f, p, progress, used);
      }
    }

    /**
     Copies until everything is delivered, an error occurs, or the direction has to wait.  Every iteration consumes the
     budget or empties a full buffer, so the loop ends against any reader and writer.
     */
    method PollCopy(link: Link, progress: bool, ops: nat) returns (r: Poll, count: nat, progress': bool, ops': nat)
      requires link.Valid() && link.size == buf.Length && Tracks(View(), link.flow) && ops > 0
      modifies this, buf, link
      ensures link.Valid() && Accounts(old(link.flow), link.flow, progress, progress', ops - ops')
      ensures Yields(old(link.flow), link.flow, ops')
      ensures r.Pending? ==> Tracks(View(), link.flow) && WillWake(old(link.flow), link.flow)
      ensures r.Failed? ==> link.flow.broken
      ensures r.Ready? ==> Delivered(link.flow, count) && !link.flow.closed
    {
      ghost var f := link.flow;
      progress', ops' := progress, ops;
      var again := true;
      r := Pending;
      while again
        invariant link.Valid() && Accounts(f, link.flow, progress, progress', ops - ops')
        invariant Yields(f, link.flow, ops') && (again ==> Tracks(View(), link.flow) && ops' > 0)
        invariant !again && r.Pending? ==> Tracks(View(), link.flow) && WillWake(f, link.flow)
        invariant !again && r.Failed? ==> link.flow.broken
        invariant !again && r.Ready? ==> Delivered(link.flow, amt) && !link.flow.closed
        decreases again, ops', cap
      {
        r, again, progress', ops' := CopyOnce(link, f, progress, progress', ops - ops', ops');
      }
      count := amt;
    }
  }

  /** One direction: a running copy, a pending shutdown of its writer with the byte count, or its result. */
  datatype TransferState = Running(buf: CopyBuffer) | ShuttingDown(count: nat) | Done(count: nat)

  class Direction {
    var state: TransferState
    const link: Link
    ghost const start: CopyBuffer

    ghost predicate Valid()
      reads this, link, start, start.buf
    {
      && link.Valid() && link.size == start.buf.Length
      && match state
         case Running(b) => b == start && Tracks(b.View(), link.flow)
         case ShuttingDown(n) => Delivered(link.flow, n) && !link.flow.closed
         case Done(n) => Delivered(link.flow, n) && link.flow.closed
    }

    ghost function Repr(): set<object> {
      {this, link, start, start.buf}
    }

    constructor (bufSize: nat, input: seq<byte>)
      requires bufSize > 0
      ensures Valid() && fresh(Repr())
      ensures state.Running? && link.flow == START && link.trace == [] && link.size == bufSize && link.input == input
    {
      link := new Link(bufSize, input);
      var b := new CopyBuffer(bufSize);
      start := b;
      state := Running(b);
    }

    /** The direction's share of one poll of the copy. */
    method TransferOneDirection(progress: bool, ops: nat) returns (r: Poll, count: nat, progress': bool, ops': nat)
      requires Valid() && ops > 0
      modifies this, link, start, start.buf
      ensures link.Valid() && Accounts(old(link.flow), link.flow, progress, progress', ops - ops')
      ensures Yields(old(link.flow), link.flow, ops')
      ensures r.Pending? ==> Valid() && !state.Done? && WillWake(old(link.flow), link.flow)
      ensures r.Failed? ==> link.flow.broken
      ensures r.Ready? ==> Valid() && state == Done(count)
      ensures old(state.Done?) ==> state == old(state) && link.flow == old(link.flow)
      ensures old(state.ShuttingDown?) ==> !state.Running?
    {
      ghost var f := link.flow;
      progress', ops' := progress, ops;
      count := 0;
      if state.Running? {
        r, count, progress', ops' := state.buf.PollCopy(link, progress, ops);
        if !r.Ready? {
          return;
        }
        state := ShuttingDown(count);
      }
      if state.ShuttingDown? {
        r, progress' := ShutDown(f, progress, progress', ops - ops');
        if !r.Ready? {
          return;
        }
        state := Done(state.count);
      }
      r, count := Ready, state.count;
    }

    method ShutDown(ghost f: Flow, ghost p: bool, progress: bool, ghost used: int) returns (r: Poll, progress': bool)
      requires link.Valid() && state.ShuttingDown? && Delivered(link.flow, state.count) && !link.flow.closed
      requires Accounts(f, link.flow, p, progress, used)
      modifies link
      ensures link.Valid() && Accounts(f, link.flow, p, progress', used)
      ensures link.flow.wakes == old(link.flow.wakes)
      ensures r.Pending? ==> Delivered(link.flow, state.count) && !link.flow.closed && WillWake(f, link.flow)
      ensures r.Failed? ==> link.flow.broken
      ensures r.Ready? ==> Delivered(link.flow, state.count) && link.flow.closed
    {
      ShutStep(f, link.flow, state.count, p, progress, used, link.size);
      r := link.PollShutdown();
      progress' := progress || r.Ready?;
    }
  }

  /** One poll makes at most as many counted steps as the budget allows, and wakes itself exactly if it makes all. */
  ghost predicate Budgeted(f: Flow, g: Flow) {
    Spent(f) <= Spent(g) <= Spent(f) + 128
    && g.wakes == f.wakes + One(Spent(g) == Spent(f) + 128)
  }

  datatype TaskPoll = Waiting | TimedOut | InvalidInput | IoError | Copied(aToB: nat, bToA: nat)

  /** The flows of both directions at some time. */
  datatype Moment = Moment(ab: Flow, ba: Flow)

  const BEGIN: Moment := Moment(START, START)

  function Total(m: Moment): nat {
    Progress(m.ab) + Progress(m.ba)
  }

  /** What one poll of the copy may make of a moment. */
  ghost predicate Advanced(m: Moment, m': Moment) {
    && m'.ab.lawful && Later(m.ab, m'.ab) && Budgeted(m.ab, m'.ab)
    && m'.ba.lawful && Later(m.ba, m'.ba) && Budgeted(m.ba, m'.ba)
  }

  /** A poll that ends in waiting leaves each direction that is not done a source of wake-ups. */
  ghost predicate Waited(m: Moment, m': Moment) {
    && Advanced(m, m') && !(m'.ab.closed && m'.ba.closed)
    && (m'.ab.closed || WillWake(m.ab, m'.ab)) && (m'.ba.closed || WillWake(m.ba, m'.ba))
  }

  /** What one poll of the copy does to the flow of a direction. */
  ghost predicate Share(f: Flow, g: Flow, r: Poll, count: nat) {
    && g.lawful && Later(f, g) && Budgeted(f, g)
    && (r.Pending? ==> WillWake(f, g) && !g.closed)
    && (r.Failed? ==> g.broken)
    && (r.Ready? ==> Delivered(g, count) && g.closed)
  }

  function AnswerOf(x: Poll, y: Poll, aToB: nat, bToA: nat): TaskPoll {
    if x.Failed? || y.Failed? then IoError else if x.Ready? && y.Ready? then Copied(aToB, bToA) else Waiting
  }

  /** What a poll that did not time out may answer. */
  ghost predicate Outcome(r: TaskPoll, m: Moment, m': Moment) {
    && Advanced(m, m')
    && match r
       case Waiting => Waited(m, m')
       case TimedOut => false
       case InvalidInput => false
       case IoError => m'.ab.broken || m'.ba.broken
       case Copied(aToB, bToA) =>
         Delivered(m'.ab, aToB) && m'.ab.closed && Delivered(m'.ba, bToA) && m'.ba.closed
  }

  lemma SharesMakeOutcome(m: Moment, m': Moment, x: Poll, y: Poll, aToB: nat, bToA: nat)
    requires Share(m.ab, m'.ab, x, aToB) && m.ba.lawful
    requires if x.Failed? then m'.ba == m.ba else Share(m.ba, m'.ba, y, bToA)
    ensures Outcome(AnswerOf(x, y, aToB, bToA), m, m')
  {
  }

  /** One direction's share, with a budget of its own. */
  method TransferShare(d: Direction, progress: bool) returns (r: Poll, count: nat, progress': bool)
    requires d.Valid()
    modifies d.Repr()
    ensures d.link.Valid() && Share(old(d.link.flow), d.link.flow, r, count)
    ensures !r.Failed? ==> d.Valid() && (r.Ready? <==> d.state.Done?)
    ensures progress' <==> progress || Progress(d.link.flow) > Progress(old(d.link.flow))
  {
    var ops;
    r, count, progress', ops := d.TransferOneDirection(progress, MAX_COPY_OPS_PER_POLL);
  }

  /** Polls one direction and then, if it did not fail, the other. */
  method TransferBoth(ab: Direction, ba: Direction) returns (x: Poll, y: Poll, aToB: nat, bToA: nat, progress: bool)
    requires ab.Valid() && ba.Valid() && ab.Repr() !! ba.Repr()
    modifies ab.Repr(), ba.Repr()
    ensures ab.link.Valid() && Share(old(ab.link.flow), ab.link.flow, x, aToB)
    ensures ba.link.Valid()
    ensures if x.Failed? then ba.link.flow == old(ba.link.flow) else Share(old(ba.link.flow), ba.link.flow, y, bToA)
    ensures !x.Failed? && !y.Failed? ==>
              ab.Valid() && ba.Valid() && (x.Ready? <==> ab.state.Done?) && (y.Ready? <==> ba.state.Done?)
    ensures progress <==> Progress(ab.link.flow) + Progress(ba.link.flow)
                            > old(Progress(ab.link.flow) + Progress(ba.link.flow))
  {
    x, aToB, progress := TransferShare(ab, false);
    y, bToA := Pending, 0;
    if !x.Failed? {
      y, bToA, progress := TransferShare(ba, progress);
    }
  }

  /** The poll function: both directions and the idle timer. Clock readings are parameters. */
  class CopyTask {
    const ab: Direction
    const ba: Direction
    const timeout: nat
    var deadline: nat

    ghost predicate Valid()
      reads ab.Repr(), ba.Repr()
    {
      && this !in ab.Repr() && this !in ba.Repr() && ab.Repr() !! ba.Repr()
      && ab.Valid() && ba.Valid()
    }

    ghost function Now(): Moment
      reads ab.link, ba.link
    {
      Moment(ab.link.flow, ba.link.flow)
    }

    constructor (ab: Direction, ba: Direction, timeout: nat, now: nat)
      requires ab.Valid() && ba.Valid() && ab.Repr() !! ba.Repr()
      ensures Valid() && this.ab == ab && this.ba == ba && this.timeout == timeout && deadline == now + timeout
    {
      this.ab := ab;
      this.ba := ba;
      this.timeout := timeout;
      this.deadline := now + timeout;
    }

    /**
     One poll at time `now`; the timer is reset at the later time `later` exactly if a byte was read or written, or a
     flush or shutdown completed, in either direction.
     */
    method Poll(now: nat, later: nat) returns (r: TaskPoll)
      requires Valid()
      modifies this, ab.Repr(), ba.Repr()
      ensures ab.link.Valid() && ba.link.Valid() && (r == Waiting ==> Valid())
      ensures r == TimedOut <==> now >= old(deadline)
      ensures r == TimedOut ==> deadline == old(deadline) && Now() == old(Now())
      ensures r != TimedOut ==> Outcome(r, old(Now()), Now())
      ensures r == IoError ==> deadline == old(deadline)
      ensures r == Waiting || r.Copied? ==>
                deadline == if Total(Now()) > Total(old(Now())) then later + timeout else old(deadline)
    {
      if now >= deadline {
        return TimedOut;
      }
      var progress;
      r, progress := PollBoth();
      if progress && !r.IoError? {
        ResetTimer(later);
      }
    }

    /** Moves the deadline; the directions are left alone. */
    method ResetTimer(now: nat)
      requires this !in ab.Repr() && this !in ba.Repr()
      modifies this`deadline
      ensures deadline == now + timeout && Now() == old(Now()) && (old(Valid()) ==> Valid())
      ensures ab.link.Valid() == old(ab.link.Valid()) && ba.link.Valid() == old(ba.link.Valid())
    {
      deadline := now + timeout;
    }

    /** The two directions' share of a poll. */
    method PollBoth() returns (r: TaskPoll, progress: bool)
      requires Valid()
      modifies ab.Repr(), ba.Repr()
      ensures ab.link.Valid() && ba.link.Valid() && (r == Waiting ==> Valid())
      ensures Outcome(r, old(Now()), Now()) && (progress <==> Total(Now()) > Total(old(Now())))
    {
      ghost var m := Now();
      var x, y, aToB, bToA;
      x, y, aToB, bToA, progress := TransferBoth(ab, ba);
      SharesMakeOutcome(m, Now(), x, y, aToB, bToA);
      r := AnswerOf(x, y, aToB, bToA);
    }
  }
}
