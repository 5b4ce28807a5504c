/**
 `LimitRead` and `LimitWrite`: byte streams throttled by a session.  What the inner stream is able to do in a poll is a
 parameter of the poll; the slice rule of `AsyncRead` and `AsyncWrite` is applied to it here.
 */
module LimitStreams {
  import opened Common
  import opened RateChain
  import opened RateRuns
  import opened LimitPolls
  import opened ReadBufs
  import opened SpeedLimiters

  /** A session together with the poll state that spends its grants, as in either half of a limited stream. */
  class Throttle {
    const session: SpeedLimitSession
    var io: IoState
    ghost var granted: nat
    ghost var moved: nat
    ghost var forfeited: nat

    ghost predicate Valid()
      reads this, session.Repr
    {
      session.Linked() && Fits(session.View(), PendingCall(io))
    }

    ghost function View(): Meter
      requires session.Linked()
      reads this, session.Repr
    {
      Meter(session.View(), io, granted, moved, forfeited)
    }

    constructor (session: SpeedLimitSession)
      requires session.Linked()
      ensures Valid() && this.session == session && View() == Meter(session.View(), Idle, 0, 0, 0)
    {
      this.session := session;
      this.io := Idle;
      this.granted, this.moved, this.forfeited := 0, 0, 0;
    }

    /** Up to the call of the inner stream: the length of the slice it gets, if it is called at all. */
    method OfferSlice(ready: seq<bool>, room: nat) returns (o: Offered)
      requires Valid() && |ready| == session.depth
      modifies this, session.Repr
      ensures Valid() && (View(), o) == LimitPolls.OfferSlice(old(View()), old(session.Gates(ready)), room)
    {
      match io {
        case Idle => o := PollGrant(Start, 0, ready, room);
        case Waiting(Some(call)) => o := PollGrant(call.0, call.1, ready, room);
        case Waiting(None) => o := Panic;
        case Moving(_) => o := OfferGrant(room);
      }
    }

    /** Polls the session for a grant of which `done` bytes count as done. */
    method PollGrant(f: Future, done: nat, ready: seq<bool>, room: nat) returns (o: Offered)
      requires Valid() && |ready| == session.depth && f == PendingCall(io)
      requires (io == Idle && done == 0) || io == Waiting(Some((f, done)))
      modifies this, session.Repr
      ensures Valid() && (View(), o) == LimitPolls.OfferSlice(old(View()), old(session.Gates(ready)), room)
    {
      var p := TakeGrant(f, done, ready, room);
      if p.Pending? {
        o := Wait;
      } else {
        o := OfferGrant(room);
      }
    }

    /** Polls the session; with a grant, what is left to do is to offer it. */
    method TakeGrant(f: Future, done: nat, ready: seq<bool>, ghost room: nat) returns (p: Polled)
      requires Valid() && |ready| == session.depth && f == PendingCall(io)
      requires (io == Idle && done == 0) || io == Waiting(Some((f, done)))
      modifies this`io, this`granted, session.Repr
      ensures session.Linked() && (p.Pending? ==> Valid()) && (p.Ready? ==> io == Moving(Some((p.granted, done))))
      ensures LimitPolls.OfferSlice(old(View()), old(session.Gates(ready)), room)
           == if p.Pending? then (View(), Wait) else LimitPolls.OfferGrant(View(), room)
    {
      ghost var m, gates := View(), session.Gates(ready);
      p := session.PollUntilReady(f, ready);
      OfferAfterPoll(m, gates, room, session.View(), p);
      if p.Pending? {
        io := Waiting(Some((p.future, done)));
      } else {
        granted := granted + p.granted;
        io := Moving(Some((p.granted, done)));
      }
    }

    /** Offers what is left of the stored grant. */
    method OfferGrant(room: nat) returns (o: Offered)
      requires session.Linked() && io.Moving?
      modifies this
      ensures io.Moving? && (View(), o) == LimitPolls.OfferGrant(old(View()), room)
    {
      match io.grant {
        case None =>
          o := Slice(room);
        case Some((len, done)) =>
          if done > len {
            io := Moving(None);
            o := Panic;
          } else {
            o := Slice(Min(len - done, room));
          }
      }
    }

    /** Accounts for the answer of the inner stream to a slice of length `slice`. */
    method Settle(slice: nat, reply: Reply) returns (out: Outcome)
      requires Valid() && io.Moving?
      modifies this
      ensures Valid() && (View(), out) == LimitPolls.Settle(old(View()), slice, reply)
    {
      match reply {
        case NotReady =>
          out := Pended;
        case Fails =>
          forfeited := forfeited + Unspent(io);
          io := Idle;
          out := Failed;
        case Moves(count) =>
          var x := Min(count, slice);
          moved := moved + x;
          match io.grant {
            case None => io := Idle;
            case Some((len, done)) => io := if done + x >= len then Idle else Moving(Some((len, done + x)));
          }
          out := Moved(x);
      }
    }
  }

  /** What the inner reader has at hand in this poll. */
  datatype Source = Blocked | Broken | Has(bytes: seq<byte>)

  function ReplyOf(src: Source): (reply: Reply)
    ensures reply.NotReady? <==> src.Blocked?
    ensures reply.Fails? <==> src.Broken?
  {
    match src
    case Blocked => NotReady
    case Broken => Fails
    case Has(bytes) => Moves(|bytes|)
  }

  class LimitRead {
    const throttle: Throttle

    constructor (session: SpeedLimitSession)
      requires session.Linked()
      ensures fresh(throttle) && throttle.Valid() && throttle.session == session
      ensures throttle.View() == Meter(session.View(), Idle, 0, 0, 0)
    {
      throttle := new Throttle(session);
    }

    /**
     The caller gets the bytes the inner reader hands over into the offered slice, in order, and no others; an inner
     reader that has nothing makes it wait, and one that breaks is reported and forfeits the grant.
     */
    method PollRead(buf: ReadBuf, ready: seq<bool>, src: Source) returns (out: Outcome, ghost slice: Option<nat>)
      requires throttle.Valid() && |ready| == throttle.session.depth && buf.Valid()
      modifies throttle, throttle.session.Repr, buf
      ensures throttle.Valid() && buf.Valid()
      ensures (throttle.View(), out, slice)
           == PollMeter(old(throttle.View()), old(throttle.session.Gates(ready)), old(buf.Remaining()), ReplyOf(src))
      ensures out.Moved? ==> src.Has? && slice.Some? && out.count == Min(|src.bytes|, slice.value)
                             && buf.filled == old(buf.filled) + src.bytes[..out.count]
      ensures !out.Moved? ==> buf.filled == old(buf.filled)
      ensures out.Failed? <==> slice.Some? && src.Broken?
      ensures out.Moved? <==> slice.Some? && src.Has?
      ensures slice.Some? && src.Blocked? ==> out == Pended
      ensures !out.Failed? ==> throttle.forfeited == old(throttle.forfeited)
      ensures old(WellStored(throttle.io)) ==> WellStored(throttle.io) && out != Panicked
    {
      ReadIsPassedOn(throttle.View(), throttle.session.Gates(ready), buf.Remaining(), src);
      var room := buf.Remaining();
      var o := throttle.OfferSlice(ready, room);
      slice := None;
      match o {
        case Wait => return Pended, None;
        case Panic => return Panicked, None;
        case Slice(len) =>
          slice := Some(len);
          SliceFits(old(throttle.View()), old(throttle.session.Gates(ready)), room);
          out := throttle.Settle(len, ReplyOf(src));
          if out.Moved? {
            buf.PutSlice(src.bytes[..out.count]);
          }
      }
    }
  }

  /** One poll in terms of what the inner reader has at hand. */
  lemma ReadIsPassedOn(m: Meter, gates: seq<Gate>, room: nat, src: Source)
    requires |gates| == Depth(m.chain) && Fits(m.chain, PendingCall(m.io))
    ensures var (m', out, slice) := PollMeter(m, gates, room, ReplyOf(src));
            && (out.Failed? <==> slice.Some? && src.Broken?) && (out.Moved? <==> slice.Some? && src.Has?)
            && (slice.Some? && src.Blocked? ==> out == Pended)
            && (!out.Failed? ==> m'.forfeited == m.forfeited)
            && (WellStored(m.io) ==> WellStored(m'.io) && out != Panicked)
  {
    ReplyIsPassedOn(m, gates, room, ReplyOf(src));
    if WellStored(m.io) {
      PollStep(m, gates, room, ReplyOf(src));
    }
  }

  lemma SliceFits(m: Meter, gates: seq<Gate>, room: nat)
    requires |gates| == Depth(m.chain) && Fits(m.chain, PendingCall(m.io))
    ensures LimitPolls.OfferSlice(m, gates, room).1.Slice? ==> LimitPolls.OfferSlice(m, gates, room).1.len <= room
  {
  }

  class LimitWrite {
    const throttle: Throttle
    /** The bytes the inner writer has accepted. */
    ghost var accepted: seq<byte>

    constructor (session: SpeedLimitSession)
      requires session.Linked()
      ensures fresh(throttle) && throttle.Valid() && throttle.session == session && accepted == []
      ensures throttle.View() == Meter(session.View(), Idle, 0, 0, 0)
    {
      throttle := new Throttle(session);
      accepted := [];
    }

    /** The inner writer accepts a prefix of the caller's bytes, and the caller is told its exact length. */
    method PollWrite(buf: seq<byte>, ready: seq<bool>, reply: Reply) returns (out: Outcome, ghost slice: Option<nat>)
      requires throttle.Valid() && |ready| == throttle.session.depth
      modifies this, throttle, throttle.session.Repr
      ensures throttle.Valid()
      ensures (throttle.View(), out, slice)
           == PollMeter(old(throttle.View()), old(throttle.session.Gates(ready)), |buf|, reply)
      ensures out.Moved? ==> reply.Moves? && slice.Some? && out.count == Min(reply.count, slice.value) <= |buf|
                             && accepted == old(accepted) + buf[..out.count]
      ensures !out.Moved? ==> accepted == old(accepted)
      ensures out.Failed? <==> slice.Some? && reply.Fails?
      ensures slice.Some? && reply.NotReady? ==> out == Pended
      ensures !out.Failed? ==> throttle.forfeited == old(throttle.forfeited)
    {
      ReplyIsPassedOn(throttle.View(), throttle.session.Gates(ready), |buf|, reply);
      var o := throttle.OfferSlice(ready, |buf|);
      slice := None;
      match o {
        case Wait => return Pended, None;
        case Panic => return Panicked, None;
        case Slice(len) =>
          slice := Some(len);
          SliceFits(old(throttle.View()), old(throttle.session.Gates(ready)), |buf|);
          out := throttle.Settle(len, reply);
          if out.Moved? {
            accepted := accepted + buf[..out.count];
          }
      }
    }
  }
}
