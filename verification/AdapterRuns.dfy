/**
 The value-level meaning of the adapters that turn owned asynchronous readers and writers into pollable ones, and of
 whole runs of polls.
 */
module AdapterRuns {
  import opened Common

  const DEFAULT_MAX_BUF_SIZE: nat := 2 * 1024 * 1024

  // ---------------------------------------------------------------------------------------------------------
  // The read adapter
  // ---------------------------------------------------------------------------------------------------------

  /** Buffered bytes, or a read in flight that was started for at most `max` bytes. */
  datatype ReadState = Buffered(bytes: seq<byte>) | Reading(max: nat)

  /** What the inner reader is able to do in this poll; it never gives more than it was asked for. */
  datatype ReadReply = NotReady | Fails | Gives(bytes: seq<byte>)

  datatype ReadAnswer = Pending | Failed | Ready(count: nat)

  /** All bytes the inner reader has produced and all bytes the callers have got. */
  datatype Reader = Reader(state: ReadState, produced: seq<byte>, delivered: seq<byte>)

  const NEW_READER: Reader := Reader(Buffered([]), [], [])

  /** Hands buffered bytes to a caller with room for `room` bytes. */
  function Deliver(r: Reader, bytes: seq<byte>, room: nat): (Reader, ReadAnswer) {
    var n := Min(|bytes|, room);
    (Reader(Buffered(bytes[n..]), r.produced, r.delivered + bytes[..n]), Ready(n))
  }

  /** One poll with room for `room` bytes in the caller's buffer. */
  function PollReader(r: Reader, room: nat, reply: ReadReply): (Reader, ReadAnswer) {
    if r.state.Buffered? && r.state.bytes != [] then Deliver(r, r.state.bytes, room)
    else
      var max := if r.state.Reading? then r.state.max else Min(room, DEFAULT_MAX_BUF_SIZE);
      match reply
      case NotReady => (r.(state := Reading(max)), Pending)
      case Fails => (r.(state := Buffered([])), Failed)
      case Gives(bytes) =>
        var got := bytes[..Min(|bytes|, max)];
        Deliver(r.(produced := r.produced + got), got, room)
  }

  datatype ReadPoll = ReadPoll(room: nat, reply: ReadReply)

  function RunReader(polls: seq<ReadPoll>): Reader {
    if polls == [] then NEW_READER
    else PollReader(RunReader(polls[..|polls| - 1]), polls[|polls| - 1].room, polls[|polls| - 1].reply).0
  }

  function InBuffer(state: ReadState): seq<byte> {
    if state.Buffered? then state.bytes else []
  }

  /** First in, first out: for any rooms, delays and errors, delivered and buffered bytes are the bytes produced. */
  lemma {:induction false} ReaderIsFifo(polls: seq<ReadPoll>)
    ensures var r := RunReader(polls); r.produced == r.delivered + InBuffer(r.state)
  {
    if polls != [] {
      var r, p := RunReader(polls[..|polls| - 1]), polls[|polls| - 1];
      ReaderIsFifo(polls[..|polls| - 1]);
      PollKeepsOrder(r, p.room, p.reply);
    }
  }

  lemma DeliverKeepsOrder(r: Reader, bytes: seq<byte>, room: nat)
    requires r.produced == r.delivered + bytes
    ensures var r' := Deliver(r, bytes, room).0; r'.produced == r'.delivered + InBuffer(r'.state)
  {
    var n := Min(|bytes|, room);
    assert bytes == bytes[..n] + bytes[n..];
  }

  lemma PollKeepsOrder(r: Reader, room: nat, reply: ReadReply)
    requires r.produced == r.delivered + InBuffer(r.state)
    ensures var r' := PollReader(r, room, reply).0; r'.produced == r'.delivered + InBuffer(r'.state)
  {
    if InBuffer(r.state) != [] {
      DeliverKeepsOrder(r, r.state.bytes, room);
    } else if reply.Gives? {
      var max := if r.state.Reading? then r.state.max else Min(room, DEFAULT_MAX_BUF_SIZE);
      var got := reply.bytes[..Min(|reply.bytes|, max)];
      DeliverKeepsOrder(r.(produced := r.produced + got), got, room);
    }
  }

  /** What the caller sees of a poll: the room it offered, and whether it was told to wait. */
  datatype Seen = Seen(room: nat, waits: bool)

  function SeenOf(polls: seq<ReadPoll>): (t: seq<Seen>)
    ensures |t| == |polls| && forall i :: 0 <= i < |t| ==> t[i].room == polls[i].room
  {
    if polls == [] then []
    else
      var prev, p := polls[..|polls| - 1], polls[|polls| - 1];
      SeenOf(prev) + [Seen(p.room, PollReader(RunReader(prev), p.room, p.reply).1 == Pending)]
  }

  /** The room in the first of the last polls that were all told to wait; none if the last poll was not. */
  function WaitingRoom(t: seq<Seen>): Option<nat> {
    if t == [] || !t[|t| - 1].waits then None
    else if WaitingRoom(t[..|t| - 1]).Some? then WaitingRoom(t[..|t| - 1])
    else Some(t[|t| - 1].room)
  }

  /** A read is in flight exactly if the caller was last told to wait, and it is for the room of the first such poll. */
  lemma {:induction false} ReadInFlightIffToldToWait(polls: seq<ReadPoll>)
    ensures var r, room := RunReader(polls), WaitingRoom(SeenOf(polls));
            (r.state.Reading? <==> room.Some?)
            && (room.Some? ==> r.state == Reading(Min(room.value, 2 * 1024 * 1024)))
  {
    if polls != [] {
      var prev := polls[..|polls| - 1];
      ReadInFlightIffToldToWait(prev);
      assert SeenOf(polls)[..|prev|] == SeenOf(prev);
    }
  }

  /** How many bytes the inner reader is asked for: at most 2 MiB, for the room in the poll that began to wait. */
  function Asked(t: seq<Seen>, room: nat): nat {
    Min(if WaitingRoom(t).Some? then WaitingRoom(t).value else room, 2 * 1024 * 1024)
  }

  /**
   What a poll answers, after any run: bytes produced and not delivered are delivered first; without them the answer is
   that of the inner reader, which waits, fails, or gives as many bytes as it has and is asked for.
   */
  lemma {:induction false} ReaderAnswers(polls: seq<ReadPoll>, room: nat, reply: ReadReply)
    ensures var r, asked := RunReader(polls), Asked(SeenOf(polls), room);
            var (r', answer) := PollReader(r, room, reply);
            if |r.produced| > |r.delivered| then
              answer == Ready(Min(|r.produced| - |r.delivered|, room)) && r'.produced == r.produced
            else
              match reply
              case NotReady => answer == Pending && r'.produced == r.produced
              case Fails => answer == Failed && r'.produced == r.produced
              case Gives(bytes) =>
                var n := Min(|bytes|, asked);
                answer == Ready(Min(n, room)) && r'.produced == r.produced + bytes[..n]
  {
    ReaderIsFifo(polls);
    ReadInFlightIffToldToWait(polls);
  }

  /** Poll `i` had no room and began to wait, and all polls since were told to wait. */
  ghost predicate WaitsWithoutRoom(t: seq<Seen>, i: nat)
    requires i < |t|
  {
    t[i].room == 0 && (i == 0 || !t[i - 1].waits) && forall j :: i <= j < |t| ==> t[j].waits
  }

  lemma {:induction false} NoRoomIsShown(t: seq<Seen>) returns (i: nat)
    requires WaitingRoom(t) == Some(0)
    ensures i < |t| && WaitsWithoutRoom(t, i)
  {
    var k := |t| - 1;
    if WaitingRoom(t[..k]).Some? {
      i := NoRoomIsShown(t[..k]);
    } else {
      i := k;
    }
  }

  lemma {:induction false} ShownIsNoRoom(t: seq<Seen>, i: nat)
    requires i < |t| && WaitsWithoutRoom(t, i)
    ensures WaitingRoom(t) == Some(0)
  {
    var k := |t| - 1;
    if i < k {
      assert WaitsWithoutRoom(t[..k], i);
      ShownIsNoRoom(t[..k], i);
    }
  }

  /**
   An end of file that is none: a caller with room is told that zero bytes were read, although the inner reader has
   bytes to give, exactly if a poll without room began to wait and every poll since was told to wait.
   */
  lemma {:induction false} FalseEofIff(polls: seq<ReadPoll>, room: nat, bytes: seq<byte>)
    requires room > 0 && bytes != []
    ensures PollReader(RunReader(polls), room, Gives(bytes)).1 == Ready(0)
       <==> exists i :: 0 <= i < |polls| && WaitsWithoutRoom(SeenOf(polls), i)
  {
    ReadInFlightIffToldToWait(polls);
    var t := SeenOf(polls);
    if WaitingRoom(t) == Some(0) {
      var i := NoRoomIsShown(t);
    }
    if i :| 0 <= i < |t| && WaitsWithoutRoom(t, i) {
      ShownIsNoRoom(t, i);
    }
  }

  /**
   A caller with room is told of zero bytes, the end of file, exactly if everything produced is delivered and the inner
   reader gives no bytes, or gives some in vain because a poll without room began to wait and all since were told to.
   */
  lemma {:induction false} EofIff(polls: seq<ReadPoll>, room: nat, reply: ReadReply)
    requires room > 0
    ensures PollReader(RunReader(polls), room, reply).1 == Ready(0)
       <==> RunReader(polls).produced == RunReader(polls).delivered && reply.Gives?
            && (reply.bytes == [] || exists i :: 0 <= i < |polls| && WaitsWithoutRoom(SeenOf(polls), i))
  {
    ReaderAnswers(polls, room, reply);
    ReaderIsFifo(polls);
    if reply.Gives? && reply.bytes != [] {
      FalseEofIff(polls, room, reply.bytes);
    }
  }

  /** A caller that never polls with an empty buffer is told of zero bytes only if there are none. */
  lemma {:induction false} NoFalseEofWithRoom(polls: seq<ReadPoll>, room: nat, bytes: seq<byte>)
    requires room > 0 && bytes != [] && forall i :: 0 <= i < |polls| ==> polls[i].room > 0
    ensures PollReader(RunReader(polls), room, Gives(bytes)).1 != Ready(0)
  {
    FalseEofIff(polls, room, bytes);
  }

  /** A run that shows it: a poll without room waits, the next one has room and gets nothing of the byte available. */
  lemma FalseEofHappens()
    ensures PollReader(RunReader([ReadPoll(0, NotReady)]), 8, Gives([7])).1 == Ready(0)
  {
    var p := ReadPoll(0, NotReady);
    assert [p][..0] == [];
    assert RunReader([p]) == PollReader(RunReader([]), 0, NotReady).0;
  }

  // ---------------------------------------------------------------------------------------------------------
  // The write adapter
  // ---------------------------------------------------------------------------------------------------------

  /**
   What each kind of call has in flight; `inner` tells whether the inner writer is at its place, `poisoned` whether a
   poll has panicked while it held the lock of the adapter.
   */
  datatype Writer = Writer(inner: bool, write: Option<seq<byte>>, flush: bool, shutdown: bool, accepted: seq<byte>,
                           poisoned: bool)

  const NEW_WRITER: Writer := Writer(true, None, false, false, [], false)

  datatype WriteReply = Waits | Errs | Takes(count: nat)

  datatype WriteAnswer = WPending | WFailed | WReady(count: nat) | Panicked

  datatype WritePoll = Write(src: seq<byte>) | Flush | Shutdown

  /** The call in flight of this kind is given up to the inner writer, which must be there to start one. */
  function Started(w: Writer, poll: WritePoll): Option<Writer> {
    match poll
    case Write(src) =>
      if w.write.Some? then Some(w)
      else if w.inner then Some(w.(inner := false, write := Some(src[..Min(|src|, DEFAULT_MAX_BUF_SIZE)]))) else None
    case Flush =>
      if w.flush then Some(w) else if w.inner then Some(w.(inner := false, flush := true)) else None
    case Shutdown =>
      if w.shutdown then Some(w) else if w.inner then Some(w.(inner := false, shutdown := true)) else None
  }

  function PollWriter(w: Writer, poll: WritePoll, reply: WriteReply): (Writer, WriteAnswer) {
    var s := Started(w, poll);
    if w.poisoned then (w, Panicked)
    else if s.None? then (w.(poisoned := true), Panicked)
    else if reply.Waits? then (s.value, WPending)
    else
      var done := s.value.(inner := true, write := if poll.Write? then None else s.value.write,
                           flush := s.value.flush && !poll.Flush?, shutdown := s.value.shutdown && !poll.Shutdown?);
      if reply.Errs? then (done, WFailed)
      else if poll.Write? && s.value.write.Some? then
        var n := Min(reply.count, |s.value.write.value|);
        (done.(accepted := w.accepted + s.value.write.value[..n]), WReady(n))
      else (done, WReady(0))
  }

  function RunWriter(polls: seq<(WritePoll, WriteReply)>): Writer {
    if polls == [] then NEW_WRITER
    else PollWriter(RunWriter(polls[..|polls| - 1]), polls[|polls| - 1].0, polls[|polls| - 1].1).0
  }

  function InFlight(w: Writer): nat {
    (if w.write.Some? then 1 else 0) + (if w.flush then 1 else 0) + (if w.shutdown then 1 else 0)
  }

  /** Always one call at most is in flight, and the inner writer is at its place exactly if none is. */
  lemma {:induction false} InnerPresentIffIdle(polls: seq<(WritePoll, WriteReply)>)
    ensures var w := RunWriter(polls); InFlight(w) == if w.inner then 0 else 1
  {
    if polls != [] {
      InnerPresentIffIdle(polls[..|polls| - 1]);
    }
  }

  predicate SameKind(a: WritePoll, b: WritePoll) {
    (a.Write? <==> b.Write?) && (a.Flush? <==> b.Flush?)
  }

  /** Poll `i` was made although a poll of another kind had just been told to wait. */
  predicate Overlaps(polls: seq<(WritePoll, WriteReply)>, i: nat)
    requires i < |polls|
  {
    i > 0 && polls[i - 1].1.Waits? && !SameKind(polls[i - 1].0, polls[i].0)
  }

  predicate LastWaits(polls: seq<(WritePoll, WriteReply)>, poll: WritePoll) {
    polls != [] && polls[|polls| - 1].1.Waits? && SameKind(polls[|polls| - 1].0, poll)
  }

  /** Unless the lock is poisoned, a call is in flight exactly if the last poll was of its kind and told to wait. */
  lemma {:induction false} InFlightIffLastWaits(polls: seq<(WritePoll, WriteReply)>)
    ensures var w := RunWriter(polls);
            w.poisoned || ((w.write.Some? <==> LastWaits(polls, Write([])))
                           && (w.flush <==> LastWaits(polls, Flush)) && (w.shutdown <==> LastWaits(polls, Shutdown)))
  {
    if polls != [] {
      InFlightIffLastWaits(polls[..|polls| - 1]);
      InnerPresentIffIdle(polls[..|polls| - 1]);
    }
  }

  /** The lock is poisoned exactly if some poll of the run overlapped a waiting call of another kind. */
  lemma {:induction false} PoisonedIffOverlap(polls: seq<(WritePoll, WriteReply)>)
    ensures RunWriter(polls).poisoned <==> exists i :: 0 <= i < |polls| && Overlaps(polls, i)
  {
    if polls != [] {
      var prev, k := polls[..|polls| - 1], |polls| - 1;
      PoisonedIffOverlap(prev);
      InnerPresentIffIdle(prev);
      InFlightIffLastWaits(prev);
      assert forall i :: 0 <= i < k ==> (Overlaps(prev, i) <==> Overlaps(polls, i));
      assert RunWriter(polls).poisoned <==> RunWriter(prev).poisoned || Overlaps(polls, k);
    }
  }

  /** A poll panics exactly if it or an earlier poll of the run overlaps a waiting call of another kind. */
  lemma {:induction false} PanicsIffOtherKindInFlight(polls: seq<(WritePoll, WriteReply)>, poll: WritePoll,
                                                      reply: WriteReply)
    ensures var all := polls + [(poll, reply)];
            PollWriter(RunWriter(polls), poll, reply).1 == Panicked
            <==> exists i :: 0 <= i < |all| && Overlaps(all, i)
  {
    var all := polls + [(poll, reply)];
    assert all[..|all| - 1] == polls;
    PoisonedIffOverlap(all);
  }

  /** A run that shows it: a flush is polled while a write has to wait. */
  lemma PanicHappens(reply: WriteReply)
    ensures PollWriter(RunWriter([(Write([1]), Waits)]), Flush, reply).1 == Panicked
  {
    var p: (WritePoll, WriteReply) := (Write([1]), Waits);
    assert [p][..0] == [];
    assert RunWriter([p]) == PollWriter(RunWriter([]), p.0, p.1).0;
  }

  /** The bytes of the first of the last polls that were all writes told to wait; none if the last poll was not. */
  function PendingWrite(polls: seq<(WritePoll, WriteReply)>): Option<seq<byte>> {
    if !LastWaits(polls, Write([])) then None
    else if PendingWrite(polls[..|polls| - 1]).Some? then PendingWrite(polls[..|polls| - 1])
    else
      var src := polls[|polls| - 1].0.src;
      Some(src[..Min(|src|, 2 * 1024 * 1024)])
  }

  lemma {:induction false} WriteInFlightIsPending(polls: seq<(WritePoll, WriteReply)>)
    ensures RunWriter(polls).poisoned || RunWriter(polls).write == PendingWrite(polls)
  {
    if polls != [] {
      WriteInFlightIsPending(polls[..|polls| - 1]);
      InnerPresentIffIdle(polls[..|polls| - 1]);
    }
  }

  /** The bytes that a poll offers to the inner writer: those of the write that waits, or at most 2 MiB of its own. */
  function Offered(polls: seq<(WritePoll, WriteReply)>, poll: WritePoll): seq<byte> {
    if !poll.Write? then []
    else if PendingWrite(polls).Some? then PendingWrite(polls).value
    else poll.src[..Min(|poll.src|, 2 * 1024 * 1024)]
  }

  /**
   What a poll answers, after any run, unless it panics: it waits exactly if the inner writer does and fails exactly if
   that does; otherwise a write reports how many of the bytes offered have been accepted.
   */
  lemma {:induction false} WriterAnswers(polls: seq<(WritePoll, WriteReply)>, poll: WritePoll, reply: WriteReply)
    ensures var w, bytes := RunWriter(polls), Offered(polls, poll);
            var (w', answer) := PollWriter(w, poll, reply);
            answer == Panicked
            || match reply
               case Waits => answer == WPending && w'.accepted == w.accepted
               case Errs => answer == WFailed && w'.accepted == w.accepted
               case Takes(count) =>
                 var n := Min(count, |bytes|);
                 answer == WReady(n) && w'.accepted == w.accepted + bytes[..n]
  {
    WriteInFlightIsPending(polls);
  }

  /** A count reported for `src` is the length of a prefix of `src` that went through. */
  predicate Honest(w: Writer, src: seq<byte>, reply: WriteReply) {
    var (w', answer) := PollWriter(w, Write(src), reply);
    answer.WReady? ==> answer.count <= |src| && w'.accepted == w.accepted + src[..answer.count]
  }

  lemma DishonestUnlessPrefix(w: Writer, src: seq<byte>)
    requires !w.poisoned && w.write.Some? && Honest(w, src, Takes(|w.write.value|))
    ensures w.write.value <= src
  {
    var b := w.write.value;
    var w' := PollWriter(w, Write(src), Takes(|b|)).0;
    assert b[..|b|] == b;
    assert w'.accepted[|w.accepted|..] == b;
    assert (w.accepted + src[..|b|])[|w.accepted|..] == src[..|b|];
  }

  /**
   A write reports a count of the caller's own bytes, whatever the inner writer answers, exactly if no write is
   pending, or the bytes it was started with are a prefix of those it is continued with, or the poll panics.
   */
  lemma {:induction false} WriteTakesPrefixIff(polls: seq<(WritePoll, WriteReply)>, src: seq<byte>)
    ensures (forall reply :: Honest(RunWriter(polls), src, reply))
       <==> PendingWrite(polls).None? || PendingWrite(polls).value <= src
            || exists i :: 0 <= i < |polls| && Overlaps(polls, i)
  {
    var w := RunWriter(polls);
    WriteInFlightIsPending(polls);
    PoisonedIffOverlap(polls);
    if !w.poisoned && w.write.Some? && forall reply :: Honest(w, src, reply) {
      DishonestUnlessPrefix(w, src);
    }
  }

  /** A caller that goes on with the same bytes until a write is done is told the truth. */
  lemma {:induction false} WriteTakesPrefix(polls: seq<(WritePoll, WriteReply)>, src: seq<byte>, reply: WriteReply)
    requires PendingWrite(polls).None? || PendingWrite(polls).value == src[..Min(|src|, 2 * 1024 * 1024)]
    ensures Honest(RunWriter(polls), src, reply)
  {
    WriteTakesPrefixIff(polls, src);
  }

  /** A run that shows the failure: a write of two bytes has to wait, and goes on with one other byte. */
  lemma WriteMisreports()
    ensures var polls := [(Write([1, 2]), Waits)];
            PollWriter(RunWriter(polls), Write([9]), Takes(2)).1 == WReady(2)
            && !Honest(RunWriter(polls), [9], Takes(2))
  {
    var p: (WritePoll, WriteReply) := (Write([1, 2]), Waits);
    assert [p][..0] == [];
    assert RunWriter([p]) == PollWriter(RunWriter([]), p.0, p.1).0;
  }
}
