/**
 The value-level meaning of one poll of `LimitRead` or `LimitWrite`, and of whole runs of polls.  Both types are the
 same machine: obtain a grant from the session, offer the inner stream a slice no longer than the unspent grant,
 and account for what the inner stream moved.
 */
module LimitPolls {
  import opened Common
  import opened RateChain
  import opened RateRuns

  /** `Waiting` holds the pending call and the bytes done; `Moving` holds the grant and the bytes done of it. */
  datatype IoState =
    | Idle
    | Waiting(call: Option<(Future, nat)>)
    | Moving(grant: Option<(nat, nat)>)

  /** What the inner stream is able to do in this poll; it never moves more than the slice it is given. */
  datatype Reply = NotReady | Fails | Moves(count: nat)

  datatype Outcome = Pended | Moved(count: nat) | Failed | Panicked

  /** What is to be done with the inner stream in this poll. */
  datatype Offered = Wait | Slice(len: nat) | Panic

  /** The session and the poll state, with the totals granted by the session, moved, and forfeited by errors. */
  datatype Meter = Meter(chain: Chain, io: IoState, granted: nat, moved: nat, forfeited: nat)

  function PendingCall(io: IoState): Future {
    if io.Waiting? && io.call.Some? then io.call.value.0 else Start
  }

  function Unspent(io: IoState): nat {
    if io.Moving? && io.grant.Some? && io.grant.value.1 <= io.grant.value.0 then io.grant.value.0 - io.grant.value.1
    else 0
  }

  /** Offers what is left of the grant, or the whole buffer if there is no grant to obey. */
  function OfferGrant(m: Meter, room: nat): (r: (Meter, Offered))
    requires m.io.Moving?
  {
    if m.io.grant.None? then (m, Slice(room))
    else if m.io.grant.value.1 > m.io.grant.value.0 then (m.(io := Moving(None)), Panic)
    else (m, Slice(Min(Unspent(m.io), room)))
  }

  /** The first half of a poll, up to the call of the inner stream with a slice. */
  function OfferSlice(m: Meter, gates: seq<Gate>, room: nat): (r: (Meter, Offered))
    requires |gates| == Depth(m.chain) && Fits(m.chain, PendingCall(m.io))
    ensures Depth(r.0.chain) == Depth(m.chain) && Fits(r.0.chain, PendingCall(r.0.io))
    ensures r.1.Slice? ==> r.0.io.Moving?
  {
    if m.io.Moving? then OfferGrant(m, room)
    else if m.io == Waiting(None) then (m, Panic)
    else
      var done := if m.io.Waiting? then m.io.call.value.1 else 0;
      var (c, p) := Poll(m.chain, PendingCall(m.io), gates);
      match p
      case Pending(f) => (m.(chain := c, io := Waiting(Some((f, done)))), Wait)
      case Ready(len) => OfferGrant(m.(chain := c, io := Moving(Some((len, done))), granted := m.granted + len), room)
  }

  lemma OfferAfterPoll(m: Meter, gates: seq<Gate>, room: nat, c: Chain, p: Polled)
    requires |gates| == Depth(m.chain) && Fits(m.chain, PendingCall(m.io)) && !m.io.Moving? && m.io != Waiting(None)
    requires Poll(m.chain, PendingCall(m.io), gates) == (c, p)
    ensures var done := if m.io.Waiting? then m.io.call.value.1 else 0;
            OfferSlice(m, gates, room) ==
            if p.Pending? then (m.(chain := c, io := Waiting(Some((p.future, done)))), Wait)
            else OfferGrant(m.(chain := c, io := Moving(Some((p.granted, done))), granted := m.granted + p.granted),
                            room)
    ensures p.Pending? ==> Fits(c, p.future)
  {
  }

  /** The second half: account for the answer of the inner stream. */
  function Settle(m: Meter, slice: nat, reply: Reply): (r: (Meter, Outcome))
    requires m.io.Moving?
    ensures r.0.chain == m.chain && PendingCall(r.0.io) == Start
  {
    match reply
    case NotReady => (m, Pended)
    case Fails => (m.(io := Idle, forfeited := m.forfeited + Unspent(m.io)), Failed)
    case Moves(count) =>
      var x := Min(count, slice);
      var io' := if m.io.grant.None? || m.io.grant.value.1 + x >= m.io.grant.value.0 then Idle
                 else Moving(Some((m.io.grant.value.0, m.io.grant.value.1 + x)));
      (m.(io := io', moved := m.moved + x), Moved(x))
  }

  /** One poll: the new state, the answer, and the length of the slice the inner stream was given, if it was polled. */
  function PollMeter(m: Meter, gates: seq<Gate>, room: nat, reply: Reply): (r: (Meter, Outcome, Option<nat>))
    requires |gates| == Depth(m.chain) && Fits(m.chain, PendingCall(m.io))
    ensures Depth(r.0.chain) == Depth(m.chain) && Fits(r.0.chain, PendingCall(r.0.io))
  {
    var (m', o) := OfferSlice(m, gates, room);
    match o
    case Wait => (m', Pended, None)
    case Panic => (m', Panicked, None)
    case Slice(len) => var (m'', out) := Settle(m', len, reply); (m'', out, Some(len))
  }

  /** The answer of a poll is that of the inner stream, if it was given a slice; only its errors forfeit anything. */
  lemma ReplyIsPassedOn(m: Meter, gates: seq<Gate>, room: nat, reply: Reply)
    requires |gates| == Depth(m.chain) && Fits(m.chain, PendingCall(m.io))
    ensures var (m', out, slice) := PollMeter(m, gates, room, reply);
            && (slice.Some? ==>
                  match reply
                  case NotReady => out == Pended
                  case Fails => out == Failed
                  case Moves(count) => out == Moved(Min(count, slice.value)))
            && (slice.None? ==> out == Pended || out == Panicked)
            && (!out.Failed? ==> m'.forfeited == m.forfeited)
  {
  }

  // ---------------------------------------------------------------------------------------------------------
  // Whole runs
  // ---------------------------------------------------------------------------------------------------------

  datatype IoPoll = IoPoll(gates: seq<Gate>, room: nat, reply: Reply)

  function RunMeter(n: nat, evs: seq<IoPoll>): (m: Meter)
    requires n > 0 && forall j :: 0 <= j < |evs| ==> |evs[j].gates| == n
    ensures Fits(m.chain, PendingCall(m.io)) && Depth(m.chain) == n
  {
    if evs == [] then Meter(NewChain(n), Idle, 0, 0, 0)
    else
      var e := evs[|evs| - 1];
      PollMeter(RunMeter(n, evs[..|evs| - 1]), e.gates, e.room, e.reply).0
  }

  /** The polls that reach the session: those made while no grant is in use. */
  function SessionPolls(n: nat, evs: seq<IoPoll>): (r: seq<Event>)
    requires n > 0 && forall j :: 0 <= j < |evs| ==> |evs[j].gates| == n
    ensures forall e :: e in r ==> exists j :: 0 <= j < |evs| && e == PollEvent(evs[j].gates)
  {
    if evs == [] then []
    else
      var prev, e := evs[..|evs| - 1], evs[|evs| - 1];
      if RunMeter(n, prev).io.Moving? || RunMeter(n, prev).io == Waiting(None) then SessionPolls(n, prev)
      else SessionPolls(n, prev) + [PollEvent(e.gates)]
  }

  lemma SessionPollsMatch(n: nat, evs: seq<IoPoll>)
    requires n > 0 && forall j :: 0 <= j < |evs| ==> |evs[j].gates| == n
    ensures forall j :: 0 <= j < |SessionPolls(n, evs)| ==> Matches(n, SessionPolls(n, evs)[j])
  {
    forall j | 0 <= j < |SessionPolls(n, evs)|
      ensures Matches(n, SessionPolls(n, evs)[j])
    {
      assert SessionPolls(n, evs)[j] in SessionPolls(n, evs);
    }
  }

  function SessionOf(m: Meter): Session {
    Session(m.chain, PendingCall(m.io), m.granted)
  }

  /** The stored states are the ones the code can go on from, and no grant is stored without something left of it. */
  predicate WellStored(io: IoState) {
    match io
    case Idle => true
    case Waiting(call) => call.Some? && call.value.1 == 0
    case Moving(grant) => grant.Some? && grant.value.1 < grant.value.0
  }

  /**
   The inner stream is given the caller's buffer cut to what is unspent, which is empty only if the caller's buffer is;
   its answer, and no other, is passed on.
   */
  ghost predicate Transparent(m: Meter, m': Meter, room: nat, reply: Reply, out: Outcome, slice: Option<nat>) {
    && out != Panicked && m.granted <= m'.granted
    && (slice.Some? ==> slice.value == Min(room, Unspent(m.io) + (m'.granted - m.granted)))
    && (slice == Some(0) ==> room == 0)
    && (out.Failed? <==> slice.Some? && reply.Fails?)
    && (out.Moved? <==> slice.Some? && reply.Moves?)
    && (out.Moved? ==> out.count == Min(reply.count, slice.value) && m'.moved == m.moved + out.count)
    && (!out.Moved? ==> m'.moved == m.moved)
  }

  /** What a poll moves, forfeits and leaves unspent comes out of what it is granted and was unspent before. */
  predicate Booked(m: Meter, m': Meter) {
    m'.moved + m'.forfeited + Unspent(m'.io) + m.granted == m.moved + m.forfeited + Unspent(m.io) + m'.granted
  }

  /** The part of a poll with a grant at hand. */
  lemma GrantStep(m: Meter, room: nat, reply: Reply)
    requires m.io.Moving? && WellStored(m.io)
    ensures var o := OfferGrant(m, room).1;
            && OfferGrant(m, room) == (m, o) && o.Slice?
            && var (m', out) := Settle(m, o.len, reply);
            && WellStored(m'.io) && Transparent(m, m', room, reply, out, Some(o.len)) && Booked(m, m')
            && m'.granted == m.granted && m'.chain == m.chain && PendingCall(m'.io) == Start
            && m'.moved >= m.moved && m'.forfeited >= m.forfeited && (out.Failed? ==> Unspent(m'.io) == 0)
  {
  }

  /** What one poll does, given that the state is well stored. */
  lemma {:induction false} PollStep(m: Meter, gates: seq<Gate>, room: nat, reply: Reply)
    requires |gates| == Depth(m.chain) && Fits(m.chain, PendingCall(m.io)) && WellStored(m.io)
    ensures var (m', out, slice) := PollMeter(m, gates, room, reply);
            && WellStored(m'.io) && Transparent(m, m', room, reply, out, slice) && Booked(m, m')
            && SessionOf(m') == (if m.io.Moving? then SessionOf(m) else Step(SessionOf(m), PollEvent(gates)))
            && m'.moved >= m.moved && m'.forfeited >= m.forfeited && (out.Failed? ==> Unspent(m'.io) == 0)
  {
    if m.io.Moving? {
      GrantStep(m, room, reply);
    } else {
      var (c, p) := Poll(m.chain, PendingCall(m.io), gates);
      OfferAfterPoll(m, gates, room, c, p);
      StepIsPoll(SessionOf(m), gates, c, p);
      if p.Ready? {
        GrantStep(m.(chain := c, io := Moving(Some((p.granted, 0))), granted := m.granted + p.granted), room, reply);
      }
    }
  }

  /** The session inside a meter runs exactly as a session on its own that sees the polls passed on to it. */
  lemma {:induction false} MeterFollowsSession(n: nat, evs: seq<IoPoll>)
    requires n > 0 && forall j :: 0 <= j < |evs| ==> |evs[j].gates| == n
    ensures forall j :: 0 <= j < |SessionPolls(n, evs)| ==> Matches(n, SessionPolls(n, evs)[j])
    ensures SessionOf(RunMeter(n, evs)) == Run(n, SessionPolls(n, evs))
    ensures WellStored(RunMeter(n, evs).io)
    ensures var m := RunMeter(n, evs); m.granted == m.moved + m.forfeited + Unspent(m.io)
  {
    SessionPollsMatch(n, evs);
    if evs != [] {
      var prev, e := evs[..|evs| - 1], evs[|evs| - 1];
      MeterFollowsSession(n, prev);
      PollStep(RunMeter(n, prev), e.gates, e.room, e.reply);
      if !RunMeter(n, prev).io.Moving? {
        RunSnoc(n, SessionPolls(n, prev), PollEvent(e.gates));
      }
    }
  }

  /**
   No fabricated end of file and no panic: in every reachable state a poll is transparent, so a poll into a non-empty
   buffer moves zero bytes only if the inner stream did.
   */
  lemma {:induction false} PollsAreTransparent(n: nat, evs: seq<IoPoll>, e: IoPoll)
    requires n > 0 && |e.gates| == n && forall j :: 0 <= j < |evs| ==> |evs[j].gates| == n
    ensures var m := RunMeter(n, evs);
            var (m', out, slice) := PollMeter(m, e.gates, e.room, e.reply);
            && WellStored(m'.io) && Transparent(m, m', e.room, e.reply, out, slice)
            && (out == Moved(0) && e.room > 0 ==> e.reply == Moves(0))
  {
    MeterFollowsSession(n, evs);
    PollStep(RunMeter(n, evs), e.gates, e.room, e.reply);
  }

  /** What is left at a limiter and what is unspent of the stored grant fit together in that limiter's last piece. */
  lemma {:induction false} GrantFitsLastPiece(n: nat, evs: seq<IoPoll>, i: nat)
    requires i < n && forall j :: 0 <= j < |evs| ==> |evs[j].gates| == n
    ensures var m := RunMeter(n, evs); Balanced(Bank(m.chain)[i], m.granted, Unspent(m.io))
  {
    if evs == [] {
      NewChainIsSound(n);
    } else {
      var prev, e := evs[..|evs| - 1], evs[|evs| - 1];
      var m := RunMeter(n, prev);
      GrantFitsLastPiece(n, prev, i);
      MeterFollowsSession(n, prev);
      PollStep(m, e.gates, e.room, e.reply);
      if !m.io.Moving? {
        RunsAreSound(n, SessionPolls(n, prev));
        PollCounters(SessionOf(m), e.gates);
        assert CounterStep(SessionOf(m), e.gates, i);
      }
    }
  }

  /** Limiter `i` keeps the weight `w` during the run. */
  ghost predicate MeterKeepsWeight(n: nat, evs: seq<IoPoll>, i: nat, w: NonZeroU32)
    requires i < n && forall j :: 0 <= j < |evs| ==> |evs[j].gates| == n
  {
    forall j :: 0 <= j < |evs| ==> |evs[j].gates| == n && evs[j].gates[i].weight == w
  }

  lemma PollForfeitsOnlyOnError(m: Meter, gates: seq<Gate>, room: nat, reply: Reply)
    requires |gates| == Depth(m.chain) && Fits(m.chain, PendingCall(m.io)) && !reply.Fails?
    ensures PollMeter(m, gates, room, reply).0.forfeited == m.forfeited
  {
  }

  /** Only errors forfeit anything. */
  lemma {:induction false} NothingForfeitedWithoutErrors(n: nat, evs: seq<IoPoll>)
    requires n > 0 && forall j :: 0 <= j < |evs| ==> |evs[j].gates| == n
    requires forall j :: 0 <= j < |evs| ==> !evs[j].reply.Fails?
    ensures RunMeter(n, evs).forfeited == 0
  {
    if evs != [] {
      var e := evs[|evs| - 1];
      NothingForfeitedWithoutErrors(n, evs[..|evs| - 1]);
      PollForfeitsOnlyOnError(RunMeter(n, evs[..|evs| - 1]), e.gates, e.room, e.reply);
    }
  }

  /**
   The throttle, end to end: at every poll boundary and for every limiter of the chain with constant weight `w`, the
   bytes moved and those forfeited by errors are together at most `p * w` and at least `(p - 1) * w`, for the `p` pieces
   taken; in a run without errors the bytes moved alone are.
   */
  lemma {:induction false} ThrottleBound(n: nat, evs: seq<IoPoll>, i: nat, w: NonZeroU32)
    requires i < n && forall j :: 0 <= j < |evs| ==> |evs[j].gates| == n
    requires MeterKeepsWeight(n, evs, i, w)
    ensures var m := RunMeter(n, evs);
            var p := |Bank(m.chain)[i].pieces|;
            p * w - w <= m.moved + m.forfeited <= p * w
            && ((forall j :: 0 <= j < |evs| ==> !evs[j].reply.Fails?) ==> p * w - w <= m.moved <= p * w)
  {
    if forall j :: 0 <= j < |evs| ==> !evs[j].reply.Fails? {
      NothingForfeitedWithoutErrors(n, evs);
    }
    MeterFollowsSession(n, evs);
    var polls := SessionPolls(n, evs);
    forall j | 0 <= j < |polls| && polls[j].PollEvent?
      ensures polls[j].gates[i].weight == w
    {
      assert polls[j] in polls;
    }
    ChargeBounds(n, polls, i, w);
    PiecesAreWeight(n, polls, i, w);
    GrantFitsLastPiece(n, evs, i);
  }

  /**
   The throttle under any `set_limit`: for every limiter, the bytes moved and forfeited are at most its pieces, and at
   least its pieces less the last one; in a run without errors the bytes moved alone are.
   */
  lemma {:induction false} ThrottleUnderSetLimit(n: nat, evs: seq<IoPoll>, i: nat)
    requires i < n && forall j :: 0 <= j < |evs| ==> |evs[j].gates| == n
    ensures var m := RunMeter(n, evs);
            var ps := Bank(m.chain)[i].pieces;
            Sum(ps) - Last(ps) <= m.moved + m.forfeited <= Sum(ps)
            && ((forall j :: 0 <= j < |evs| ==> !evs[j].reply.Fails?) ==> Sum(ps) - Last(ps) <= m.moved <= Sum(ps))
  {
    if forall j :: 0 <= j < |evs| ==> !evs[j].reply.Fails? {
      NothingForfeitedWithoutErrors(n, evs);
    }
    MeterFollowsSession(n, evs);
    GrantFitsLastPiece(n, evs, i);
  }
}
