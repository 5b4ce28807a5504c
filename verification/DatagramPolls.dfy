/**
 The polls of a pending `send_to` or `recv_from`: it waits for a grant, then for the inner call, and can be dropped at
 any moment.  Whole runs of polls and drops refine runs of calls, so the bounds on calls hold at every await.
 */
module DatagramPolls {
  import opened Common
  import opened RateChain
  import opened RateRuns
  import opened DatagramRuns

  /** Where the pending call stands; `grant` is the one it has just taken, 0 if an open one is used. */
  datatype Stage = Quiet | Granting | Inner(grant: nat)

  datatype Socket = Socket(account: Account, stage: Stage)

  /** What the inner socket is able to do in this poll. */
  datatype InnerReply = InnerWaits | InnerFails | InnerPasses(len: nat)

  datatype Answer = Suspended | Errored | Transferred(len: nat)

  ghost predicate WellStaged(s: Socket) {
    && Fits(s.account.session.chain, s.account.session.future)
    && (s.account.session.future == Start <==> !s.stage.Granting?)
    && (s.account.state.Open? ==> s.stage == Quiet || s.stage == Inner(0))
  }

  /** The poll of the inner call. */
  function PollInner(a: Account, grant: nat, inner: InnerReply): (r: (Socket, Answer))
    ensures r.0.account.session == a.session && !r.0.stage.Granting?
  {
    match inner
    case InnerWaits => (Socket(a, Inner(grant)), Suspended)
    case InnerFails => (Socket(a.(forfeited := a.forfeited + grant), Quiet), Errored)
    case InnerPasses(len) => (Socket(Pass(a, a.state, grant, len), Quiet), Transferred(len))
  }

  predicate PollsSession(s: Socket) {
    !s.stage.Inner? && s.account.state.Idle?
  }

  /** One poll of the call, which starts a call if none is pending. */
  function PollCall(s: Socket, gates: seq<Gate>, inner: InnerReply): (r: (Socket, Answer))
    requires WellStaged(s) && |gates| == Depth(s.account.session.chain)
    ensures WellStaged(r.0) && Depth(r.0.account.session.chain) == |gates|
  {
    var a := s.account;
    if !PollsSession(s) then PollInner(a, if s.stage.Inner? then s.stage.grant else 0, inner)
    else
      var t := Step(a.session, PollEvent(gates));
      if t.future != Start then (Socket(a.(session := t), Granting), Suspended)
      else PollInner(a.(session := t), t.total - a.session.total, inner)
  }

  /** The inner call is polled: at once, or because the session has given a grant in this poll. */
  ghost predicate InnerIsPolled(s: Socket, gates: seq<Gate>)
    requires WellStaged(s) && |gates| == Depth(s.account.session.chain)
  {
    s.stage.Inner? || s.account.state.Open? || Step(s.account.session, PollEvent(gates)).future == Start
  }

  /**
   The answer of a poll is that of the inner call, if it is polled; the bytes passed are those reported, and only an
   error forfeits the grant, which is kept while the inner call waits.
   */
  lemma ReplyIsPassedOn(s: Socket, gates: seq<Gate>, inner: InnerReply)
    requires WellStaged(s) && |gates| == Depth(s.account.session.chain)
    ensures var (s', answer) := PollCall(s, gates, inner);
            var a, a' := s.account, s'.account;
            var grant := if s.stage.Inner? then s.stage.grant else a'.session.total - a.session.total;
            && (!InnerIsPolled(s, gates) ==> answer == Suspended && s'.stage == Granting)
            && (InnerIsPolled(s, gates) ==>
                  match inner
                  case InnerWaits => answer == Suspended && s'.stage == Inner(grant)
                  case InnerFails => answer == Errored && s'.stage == Quiet
                  case InnerPasses(len) => answer == Transferred(len) && s'.stage == Quiet)
            && a'.passed == a.passed + (if answer.Transferred? then answer.len else 0)
            && a'.forfeited == a.forfeited + (if answer.Errored? then grant else 0)
  {
  }

  lemma PollCallAfter(s: Socket, gates: seq<Gate>, inner: InnerReply, t: Session)
    requires WellStaged(s) && PollsSession(s) && |gates| == Depth(s.account.session.chain)
    requires t == Step(s.account.session, PollEvent(gates))
    ensures t.future != Start ==>
              PollCall(s, gates, inner) == (Socket(s.account.(session := t), Granting), Suspended)
              && WellStaged(PollCall(s, gates, inner).0)
    ensures t.future == Start ==>
              t.total >= s.account.session.total
              && PollCall(s, gates, inner)
                 == PollInner(s.account.(session := t), t.total - s.account.session.total, inner)
              && WellStaged(PollCall(s, gates, inner).0)
  {
  }

  /** Dropping the pending call, if there is one; a grant it has taken is lost. */
  function DropCall(s: Socket): (s': Socket)
    requires WellStaged(s)
    ensures WellStaged(s') && s'.stage == Quiet && Depth(s'.account.session.chain) == Depth(s.account.session.chain)
  {
    var a := s.account;
    match s.stage
    case Quiet => s
    case Granting => Socket(a.(session := a.session.(future := Start)), Quiet)
    case Inner(grant) => Socket(a.(forfeited := a.forfeited + grant), Quiet)
  }

  datatype SocketEvent = PollSocket(gates: seq<Gate>, inner: InnerReply) | DropPending

  predicate Wide(n: nat, polls: seq<seq<Gate>>) {
    forall j :: 0 <= j < |polls| ==> |polls[j]| == n
  }

  predicate Fitting(n: nat, evs: seq<SocketEvent>) {
    n > 0 && forall j :: 0 <= j < |evs| && evs[j].PollSocket? ==> |evs[j].gates| == n
  }

  function StepSocket(s: Socket, e: SocketEvent): (s': Socket)
    requires WellStaged(s) && (e.PollSocket? ==> |e.gates| == Depth(s.account.session.chain))
    ensures WellStaged(s') && Depth(s'.account.session.chain) == Depth(s.account.session.chain)
  {
    if e.DropPending? then DropCall(s) else PollCall(s, e.gates, e.inner).0
  }

  function RunSocket(n: nat, evs: seq<SocketEvent>): (s: Socket)
    requires Fitting(n, evs)
    ensures WellStaged(s) && Depth(s.account.session.chain) == n
  {
    if evs == [] then Socket(RunCalls(n, []), Quiet)
    else StepSocket(RunSocket(n, evs[..|evs| - 1]), evs[|evs| - 1])
  }

  // ---------------------------------------------------------------------------------------------------------
  // Runs of polls are runs of calls
  // ---------------------------------------------------------------------------------------------------------

  /** The calls that have ended, and the polls of the session that the pending call has made. */
  datatype Log = Log(calls: seq<Call>, polls: seq<seq<Gate>>)

  predicate WideLog(n: nat, log: Log) {
    Wide(n, log.polls) && forall i :: 0 <= i < |log.calls| ==> Wide(n, log.calls[i].polls)
  }

  function End(n: nat, log: Log, fate: Fate): (log': Log)
    requires WideLog(n, log)
    ensures WideLog(n, log')
  {
    Log(log.calls + [Call(log.polls, fate)], [])
  }

  /** The log of the answer `answer`. */
  function Answered(n: nat, log: Log, answer: Answer): (log': Log)
    requires WideLog(n, log)
    ensures WideLog(n, log')
  {
    match answer
    case Suspended => log
    case Errored => End(n, log, Failed)
    case Transferred(len) => End(n, log, Passed(len))
  }

  function StepLog(n: nat, log: Log, s: Socket, e: SocketEvent): (log': Log)
    requires WideLog(n, log) && WellStaged(s) && Depth(s.account.session.chain) == n
    requires e.PollSocket? ==> |e.gates| == n
    ensures WideLog(n, log')
  {
    match e
    case DropPending => if s.stage == Quiet then log else End(n, log, Dropped)
    case PollSocket(gates, inner) =>
      var now := if PollsSession(s) then log.(polls := log.polls + [gates]) else log;
      Answered(n, now, PollCall(s, gates, inner).1)
  }

  function LogOf(n: nat, evs: seq<SocketEvent>): (log: Log)
    requires Fitting(n, evs)
    ensures WideLog(n, log)
  {
    if evs == [] then Log([], [])
    else StepLog(n, LogOf(n, evs[..|evs| - 1]), RunSocket(n, evs[..|evs| - 1]), evs[|evs| - 1])
  }

  /** All these polls of the session were told to wait. */
  predicate StillWaits(s: Session, polls: seq<seq<Gate>>)
    requires Fits(s.chain, s.future) && Wide(Depth(s.chain), polls)
    decreases |polls|
  {
    polls == []
    || (Step(s, PollEvent(polls[0])).future != Start && StillWaits(Step(s, PollEvent(polls[0])), polls[1..]))
  }

  function After(s: Session, polls: seq<seq<Gate>>): (s': Session)
    requires Fits(s.chain, s.future) && Wide(Depth(s.chain), polls)
    ensures Fits(s'.chain, s'.future) && Depth(s'.chain) == Depth(s.chain)
    decreases |polls|
  {
    if polls == [] then s else After(Step(s, PollEvent(polls[0])), polls[1..])
  }

  lemma {:induction false} WaitingIsAwait(s: Session, polls: seq<seq<Gate>>)
    requires Fits(s.chain, s.future) && Wide(Depth(s.chain), polls) && StillWaits(s, polls)
    ensures Await(s, polls) == (After(s, polls).(future := Start), None) && After(s, polls).total == s.total
    decreases |polls|
  {
    if polls != [] {
      WaitingIsAwait(Step(s, PollEvent(polls[0])), polls[1..]);
    }
  }

  /** One more poll of a session that has waited so far. */
  lemma {:induction false} WaitsOnceMore(s: Session, polls: seq<seq<Gate>>, gates: seq<Gate>)
    requires Fits(s.chain, s.future) && Wide(Depth(s.chain), polls) && |gates| == Depth(s.chain)
    requires StillWaits(s, polls)
    ensures var t, all := Step(After(s, polls), PollEvent(gates)), polls + [gates];
            Wide(Depth(s.chain), all)
            && if t.future == Start then Await(s, all) == (t, Some(t.total - After(s, polls).total))
               else StillWaits(s, all) && After(s, all) == t
    decreases |polls|
  {
    var all := polls + [gates];
    if polls == [] {
      assert all[1..] == [];
    } else {
      WaitsOnceMore(Step(s, PollEvent(polls[0])), polls[1..], gates);
      assert all[1..] == polls[1..] + [gates] && all[0] == polls[0];
    }
  }

  /** `a` is where the call begun at `a0` stands after the polls, with the new grant `grant`. */
  ghost predicate HasGrant(a0: Account, polls: seq<seq<Gate>>, a: Account, grant: nat)
    requires a0.session.future == Start && Wide(Depth(a0.session.chain), polls)
  {
    if a0.state.Open? then grant == 0 && a == a0 && polls == []
    else Await(a0.session, polls) == (a.session, Some(grant)) && a == a0.(session := a.session)
  }

  /** The account of the socket is that of the calls that have ended and of what the pending call has done so far. */
  ghost predicate Stands(a0: Account, polls: seq<seq<Gate>>, s: Socket)
    requires a0.session.future == Start && Wide(Depth(a0.session.chain), polls)
  {
    match s.stage
    case Quiet => s.account == a0 && polls == []
    case Granting => a0.state.Idle? && StillWaits(a0.session, polls)
                     && s.account == a0.(session := After(a0.session, polls))
    case Inner(grant) => HasGrant(a0, polls, s.account, grant)
  }

  /** The log after the poll of the inner call, and the socket that stands there. */
  ghost predicate Ends(a0: Account, polls: seq<seq<Gate>>, s': Socket, answer: Answer)
    requires a0.session.future == Start && Wide(Depth(a0.session.chain), polls)
  {
    match answer
    case Suspended => Stands(a0, polls, s')
    case Errored => s' == Socket(Perform(a0, Call(polls, Failed)), Quiet)
    case Transferred(len) => s' == Socket(Perform(a0, Call(polls, Passed(len))), Quiet)
  }

  lemma InnerEnds(a0: Account, polls: seq<seq<Gate>>, a: Account, grant: nat, inner: InnerReply)
    requires a0.session.future == Start && Wide(Depth(a0.session.chain), polls) && HasGrant(a0, polls, a, grant)
    ensures Ends(a0, polls, PollInner(a, grant, inner).0, PollInner(a, grant, inner).1)
  {
  }

  lemma SessionEnds(a0: Account, polls: seq<seq<Gate>>, s: Socket, gates: seq<Gate>, inner: InnerReply)
    requires a0.session.future == Start && Wide(Depth(a0.session.chain), polls) && Stands(a0, polls, s)
    requires WellStaged(s) && PollsSession(s) && |gates| == Depth(a0.session.chain) == Depth(s.account.session.chain)
    ensures Wide(|gates|, polls + [gates])
    ensures Ends(a0, polls + [gates], PollCall(s, gates, inner).0, PollCall(s, gates, inner).1)
  {
    WaitsOnceMore(a0.session, polls, gates);
    WaitingIsAwait(a0.session, polls);
    var t := Step(s.account.session, PollEvent(gates));
    if t.future == Start {
      InnerEnds(a0, polls + [gates], s.account.(session := t), t.total - s.account.session.total, inner);
    }
  }

  lemma PollEnds(a0: Account, polls: seq<seq<Gate>>, s: Socket, gates: seq<Gate>, inner: InnerReply)
    requires a0.session.future == Start && Wide(Depth(a0.session.chain), polls) && Stands(a0, polls, s)
    requires WellStaged(s) && |gates| == Depth(a0.session.chain) == Depth(s.account.session.chain)
    ensures var all := if PollsSession(s) then polls + [gates] else polls;
            Wide(|gates|, all) && Ends(a0, all, PollCall(s, gates, inner).0, PollCall(s, gates, inner).1)
  {
    if PollsSession(s) {
      SessionEnds(a0, polls, s, gates, inner);
    } else {
      InnerEnds(a0, polls, s.account, if s.stage.Inner? then s.stage.grant else 0, inner);
    }
  }

  lemma DropEnds(a0: Account, polls: seq<seq<Gate>>, s: Socket)
    requires a0.session.future == Start && Wide(Depth(a0.session.chain), polls) && Stands(a0, polls, s)
    requires WellStaged(s) && s.stage != Quiet
    ensures DropCall(s) == Socket(Perform(a0, Call(polls, Dropped)), Quiet)
  {
    if s.stage.Granting? {
      WaitingIsAwait(a0.session, polls);
    }
  }

  lemma RunCallsEnd(n: nat, log: Log, fate: Fate)
    requires n > 0 && WideLog(n, log)
    ensures RunCalls(n, End(n, log, fate).calls) == Perform(RunCalls(n, log.calls), Call(log.polls, fate))
  {
    assert End(n, log, fate).calls[..|log.calls|] == log.calls;
  }

  lemma StandsAfterDrop(n: nat, log: Log, s: Socket)
    requires n > 0 && WideLog(n, log) && WellStaged(s) && Depth(s.account.session.chain) == n
    requires Stands(RunCalls(n, log.calls), log.polls, s)
    ensures var log' := StepLog(n, log, s, DropPending);
            Stands(RunCalls(n, log'.calls), log'.polls, StepSocket(s, DropPending))
  {
    if s.stage != Quiet {
      DropEnds(RunCalls(n, log.calls), log.polls, s);
      RunCallsEnd(n, log, Dropped);
    }
  }

  lemma StandsAfterPoll(n: nat, log: Log, s: Socket, gates: seq<Gate>, inner: InnerReply)
    requires n > 0 && WideLog(n, log) && WellStaged(s) && Depth(s.account.session.chain) == n == |gates|
    requires Stands(RunCalls(n, log.calls), log.polls, s)
    ensures var log' := StepLog(n, log, s, PollSocket(gates, inner));
            Stands(RunCalls(n, log'.calls), log'.polls, StepSocket(s, PollSocket(gates, inner)))
  {
    PollEnds(RunCalls(n, log.calls), log.polls, s, gates, inner);
    var all := if PollsSession(s) then log.polls + [gates] else log.polls;
    EndsStands(n, Log(log.calls, all), PollCall(s, gates, inner).0, PollCall(s, gates, inner).1);
  }

  lemma EndsStands(n: nat, log: Log, s': Socket, answer: Answer)
    requires n > 0 && WideLog(n, log) && Ends(RunCalls(n, log.calls), log.polls, s', answer)
    ensures Stands(RunCalls(n, Answered(n, log, answer).calls), Answered(n, log, answer).polls, s')
  {
    if answer.Errored? {
      RunCallsEnd(n, log, Failed);
    } else if answer.Transferred? {
      RunCallsEnd(n, log, Passed(answer.len));
    }
  }

  lemma {:induction false} SocketStands(n: nat, evs: seq<SocketEvent>)
    requires Fitting(n, evs)
    ensures Stands(RunCalls(n, LogOf(n, evs).calls), LogOf(n, evs).polls, RunSocket(n, evs))
  {
    if evs != [] {
      var prev, e := evs[..|evs| - 1], evs[|evs| - 1];
      SocketStands(n, prev);
      if e.DropPending? {
        StandsAfterDrop(n, LogOf(n, prev), RunSocket(n, prev));
      } else {
        StandsAfterPoll(n, LogOf(n, prev), RunSocket(n, prev), e.gates, e.inner);
      }
    }
  }

  /** The calls of a run, with the pending one, if there is one, as if it were dropped now. */
  function CallsOf(n: nat, evs: seq<SocketEvent>): (calls: seq<Call>)
    requires Fitting(n, evs)
    ensures forall i :: 0 <= i < |calls| ==> Wide(n, calls[i].polls)
  {
    if RunSocket(n, evs).stage == Quiet then LogOf(n, evs).calls else End(n, LogOf(n, evs), Dropped).calls
  }

  /** A run of polls and drops, with the pending call dropped at last, is the run of its calls. */
  lemma {:induction false} SocketRefinesCalls(n: nat, evs: seq<SocketEvent>)
    requires Fitting(n, evs)
    ensures DropCall(RunSocket(n, evs)).account == RunCalls(n, CallsOf(n, evs))
  {
    SocketStands(n, evs);
    var log, s := LogOf(n, evs), RunSocket(n, evs);
    if s.stage != Quiet {
      DropEnds(RunCalls(n, log.calls), log.polls, s);
      RunCallsEnd(n, log, Dropped);
    }
  }

  /** The inner calls of the run pass at most `m` bytes each. */
  predicate AtMost(evs: seq<SocketEvent>, m: nat) {
    forall j :: 0 <= j < |evs| && evs[j].PollSocket? && evs[j].inner.InnerPasses? ==> evs[j].inner.len <= m
  }

  lemma EndedCall(n: nat, log: Log, s: Socket, e: SocketEvent)
    requires WideLog(n, log) && WellStaged(s) && Depth(s.account.session.chain) == n
    requires e.PollSocket? ==> |e.gates| == n
    ensures var calls := StepLog(n, log, s, e).calls;
            calls == log.calls
            || (calls[..|calls| - 1] == log.calls
                && var fate := calls[|calls| - 1].fate;
                fate.Passed? ==> e.PollSocket? && e.inner == InnerPasses(fate.len))
  {
  }

  lemma {:induction false} CallsAreAtMost(n: nat, evs: seq<SocketEvent>, m: nat)
    requires Fitting(n, evs) && AtMost(evs, m)
    ensures forall j :: 0 <= j < |LogOf(n, evs).calls| && LogOf(n, evs).calls[j].fate.Passed? ==>
              LogOf(n, evs).calls[j].fate.len <= m
  {
    if evs != [] {
      CallsAreAtMost(n, evs[..|evs| - 1], m);
      EndedCall(n, LogOf(n, evs[..|evs| - 1]), RunSocket(n, evs[..|evs| - 1]), evs[|evs| - 1]);
    }
  }

  lemma DroppedAccount(s: Socket)
    requires WellStaged(s)
    ensures var a, a' := s.account, DropCall(s).account;
            a'.session.chain == a.session.chain && a'.passed == a.passed && a'.closed == a.closed
            && a'.fitted == a.fitted && a'.forfeited == a.forfeited + if s.stage.Inner? then s.stage.grant else 0
  {
  }

  /**
   The datagram throttle at every await: the bytes passed so far, and what is forfeited by now together with a grant
   that would be lost if the pending call were dropped, obey the bounds on calls.
   */
  lemma {:induction false} SocketThrottle(n: nat, evs: seq<SocketEvent>, m: nat, i: nat)
    requires i < n && Fitting(n, evs) && AtMost(evs, m)
    ensures var s := RunSocket(n, evs);
            var a, pieces := s.account, Bank(s.account.session.chain)[i].pieces;
            var lost := a.forfeited + if s.stage.Inner? then s.stage.grant else 0;
            Sum(pieces) - Last(pieces) - lost <= a.passed <= Sum(pieces) + a.closed * m - (a.closed - a.fitted)
            && a.fitted <= a.closed <= UsedUp(Bank(a.session.chain))
  {
    CallsAreAtMost(n, evs, m);
    SocketRefinesCalls(n, evs);
    DroppedAccount(RunSocket(n, evs));
    DatagramThrottle(n, CallsOf(n, evs), m, i);
  }
}
