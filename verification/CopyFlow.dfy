/**
 The protocol one direction of a bidirectional copy must follow, stated on the trace of what its reader, its writer
 and its waker did, without any buffer or copy loop.
 */
module CopyFlows {
  import opened Common

  /**
   The outcomes of polling the reader with room for `room` bytes, the writer with the bytes `src`, the flush and the
   shutdown, and wake-ups by the copy itself.
   */
  datatype Event =
    | Got(room: nat, bytes: seq<byte>) | Eof(room: nat) | ReadPending(room: nat) | ReadFailed(room: nat)
    | Put(src: seq<byte>, len: nat) | PutNothing(src: seq<byte>)
    | WritePending(src: seq<byte>) | WriteFailed(src: seq<byte>)
    | Flushed | FlushPending | FlushFailed
    | Shut | ShutPending | ShutFailed
    | Woken

  /** What a trace amounts to. `dirty`: written since the last flush; `finished`: flushed with everything delivered. */
  datatype Flow = Flow(
    received: seq<byte>, sent: seq<byte>,
    ended: bool, dirty: bool, finished: bool, closed: bool, broken: bool, lawful: bool,
    gots: nat, puts: nat, flushes: nat, readWaits: nat, writeWaits: nat, wakes: nat)

  const START: Flow := Flow([], [], false, false, false, false, false, true, 0, 0, 0, 0, 0, 0)

  predicate MayRead(f: Flow, room: nat, size: nat) {
    !f.ended && 0 < room && |f.received| + room <= |f.sent| + size
  }

  predicate MayWrite(f: Flow, src: seq<byte>) {
    src != [] && f.sent + src == f.received
  }

  /**
   What may happen next, for a copy that may hold back at most `size` bytes: read only before the end and into room that
   is free, offer the writer all that was read and not written yet, flush only when drained and with a reason, shut down
   only after the final flush and once, and nothing after an error.
   */
  predicate Allowed(f: Flow, e: Event, size: nat) {
    !f.broken &&
    match e
    case Got(room, bytes) => MayRead(f, room, size) && 0 < |bytes| <= room
    case Eof(room) => MayRead(f, room, size)
    case ReadPending(room) => MayRead(f, room, size)
    case ReadFailed(room) => MayRead(f, room, size)
    case Put(src, len) => MayWrite(f, src) && 0 < len <= |src|
    case PutNothing(src) => MayWrite(f, src)
    case WritePending(src) => MayWrite(f, src)
    case WriteFailed(src) => MayWrite(f, src)
    case Flushed => f.sent == f.received && (f.dirty || f.ended) && !f.finished
    case FlushPending => f.sent == f.received && (f.dirty || f.ended) && !f.finished
    case FlushFailed => f.sent == f.received && (f.dirty || f.ended) && !f.finished
    case Shut => f.finished && !f.closed
    case ShutPending => f.finished && !f.closed
    case ShutFailed => f.finished && !f.closed
    case Woken => true
  }

  function Effect(f: Flow, e: Event): Flow {
    match e
    case Got(_, bytes) => f.(received := f.received + bytes, gots := f.gots + 1)
    case Eof(_) => f.(ended := true)
    case Put(src, len) => f.(sent := f.sent + src[..Min(len, |src|)], puts := f.puts + 1, dirty := true)
    case Flushed =>
      f.(dirty := false, flushes := f.flushes + 1, finished := f.finished || (f.ended && f.sent == f.received))
    case Shut => f.(closed := true)
    case ReadPending(_) => f.(readWaits := f.readWaits + 1)
    case WritePending(_) => f.(writeWaits := f.writeWaits + 1)
    case FlushPending => f.(writeWaits := f.writeWaits + 1)
    case ShutPending => f.(writeWaits := f.writeWaits + 1)
    case ReadFailed(_) => f.(broken := true)
    case PutNothing(_) => f.(broken := true)
    case WriteFailed(_) => f.(broken := true)
    case FlushFailed => f.(broken := true)
    case ShutFailed => f.(broken := true)
    case Woken => f.(wakes := f.wakes + 1)
  }

  function Next(f: Flow, e: Event, size: nat): Flow {
    Effect(f, e).(lawful := f.lawful && Allowed(f, e, size))
  }

  function FlowOf(t: seq<Event>, size: nat): Flow {
    if t == [] then START else Next(FlowOf(t[..|t| - 1], size), t[|t| - 1], size)
  }

  function One(b: bool): nat {
    if b then 1 else 0
  }

  /** Steps that reset the idle timer. */
  function Progress(f: Flow): nat {
    f.gots + f.puts + f.flushes + One(f.closed)
  }

  /** Steps that consume the copy budget of a poll: reads, writes, and flushes other than the final one. */
  function Spent(f: Flow): int {
    f.gots + One(f.ended) + f.puts + f.flushes - One(f.finished)
  }

  // ---------------------------------------------------------------------------------------------------------
  // Consequences of the protocol, for every trace
  // ---------------------------------------------------------------------------------------------------------

  ghost predicate Consistent(f: Flow, size: nat) {
    && f.sent <= f.received && |f.received| <= |f.sent| + size
    && (f.finished ==> f.ended && f.sent == f.received && !f.dirty)
    && (f.closed ==> f.finished)
    && f.gots <= |f.received| && f.puts <= |f.sent|
    && f.flushes + One(f.dirty) <= f.puts + One(f.finished)
  }

  lemma NextIsConsistent(f: Flow, e: Event, size: nat)
    requires Consistent(f, size) && Allowed(f, e, size)
    ensures Consistent(Next(f, e, size), size)
  {
  }

  /** In a lawful trace bytes are delivered in order, none is lost or invented, and at most `size` are held back. */
  lemma {:induction false} LawfulIsConsistent(t: seq<Event>, size: nat)
    requires FlowOf(t, size).lawful
    ensures Consistent(FlowOf(t, size), size)
  {
    if t != [] {
      var f, e := FlowOf(t[..|t| - 1], size), t[|t| - 1];
      LawfulIsConsistent(t[..|t| - 1], size);
      NextIsConsistent(f, e, size);
    }
  }

  /** A writer that was shut down has received the whole input up to the end of file, flushed, and gets nothing more. */
  lemma ShutMeansDelivered(t: seq<Event>, e: Event, size: nat)
    requires FlowOf(t, size).lawful && FlowOf(t, size).closed
    ensures var f := FlowOf(t, size); f.ended && f.sent == f.received && !f.dirty
    ensures Allowed(FlowOf(t, size), e, size) ==> e == Woken
  {
    LawfulIsConsistent(t, size);
  }

  /** Idle flushes are paid for by earlier writes, so progress steps are bounded by the bytes moved. */
  lemma ProgressIsPaidFor(t: seq<Event>, size: nat)
    requires FlowOf(t, size).lawful
    ensures var f := FlowOf(t, size); Progress(f) <= |f.received| + 2 * |f.sent| + 2
  {
    LawfulIsConsistent(t, size);
  }

  /** Steps that consume the copy budget are bounded by the bytes moved, too. */
  lemma SpentIsPaidFor(t: seq<Event>, size: nat)
    requires FlowOf(t, size).lawful
    ensures var f := FlowOf(t, size); Spent(f) <= |f.received| + 2 * |f.sent| + 1
  {
    LawfulIsConsistent(t, size);
  }

  /** The writer takes all it is offered. */
  predicate TakesAll(t: seq<Event>) {
    forall i :: 0 <= i < |t| && t[i].Put? ==> t[i].len == |t[i].src|
  }

  /** More reads than writes have succeeded while something is held back. */
  predicate WritesFollow(f: Flow) {
    f.puts + One(f.sent != f.received) <= f.gots
  }

  lemma NextFollows(f: Flow, e: Event, size: nat)
    requires WritesFollow(f) && Allowed(f, e, size) && (e.Put? ==> e.len == |e.src|)
    ensures WritesFollow(Next(f, e, size))
  {
    if e.Put? {
      assert e.src[..e.len] == e.src;
    }
  }

  /** A writer that takes all it is offered is polled with success at most as often as the reader. */
  lemma {:induction false} FullWritesFollowReads(t: seq<Event>, size: nat)
    requires FlowOf(t, size).lawful && TakesAll(t)
    ensures var f := FlowOf(t, size); f.puts + One(f.sent != f.received) <= f.gots
  {
    if t != [] {
      var f, e := FlowOf(t[..|t| - 1], size), t[|t| - 1];
      FullWritesFollowReads(t[..|t| - 1], size);
      NextFollows(f, e, size);
    }
  }
}
