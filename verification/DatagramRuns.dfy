/**
 The value-level meaning of `LimitDatagram::{send_to, recv_from}` and of whole runs of such calls.  Datagrams are not
 cut: a grant is used until the datagrams sent under it reach it, so they may pass it by less than one datagram, or by
 a whole one if the first datagram is exactly as long as the grant.
 */
module DatagramRuns {
  import opened Common
  import opened Arithmetic
  import opened RateChain
  import opened RateRuns

  /** `Open` is the source's `Writing` or `Reading`: a grant and the bytes already sent or received under it. */
  datatype State = Idle | Open(grant: nat, done: nat)

  /** What became of the inner call: it succeeded with a datagram of this length, failed, or was dropped. */
  datatype Fate = Passed(len: nat) | Failed | Dropped

  /**
   `closed` counts used-up grants, `fitted` those of them that were kept open by an exact fit; `passed` are all bytes,
   `forfeited` the grants lost to errors and drops.
   */
  datatype Account = Account(session: Session, state: State, passed: nat, forfeited: nat, closed: nat, fitted: nat)

  /** A call: the polls of the session until the grant or the drop of the call, and the fate of the inner call. */
  datatype Call = Call(polls: seq<seq<Gate>>, fate: Fate)

  /** The wait for a grant; the call is dropped if the polls end first. */
  function Await(s: Session, polls: seq<seq<Gate>>): (r: (Session, Option<nat>))
    requires Fits(s.chain, s.future) && forall j :: 0 <= j < |polls| ==> |polls[j]| == Depth(s.chain)
    ensures Fits(r.0.chain, r.0.future) && Depth(r.0.chain) == Depth(s.chain) && r.0.future == Start
    decreases |polls|
  {
    if polls == [] then (s.(future := Start), None)
    else
      var s' := Step(s, PollEvent(polls[0]));
      if s'.future == Start then (s', Some(s'.total - s.total)) else Await(s', polls[1..])
  }

  /** The state after a datagram of `len` bytes passed. */
  function Charged(state: State, grant: nat, len: nat): State {
    match state
    case Idle => if len > grant then Idle else Open(grant, len)
    case Open(g, done) => if done + len >= g then Idle else Open(g, done + len)
  }

  function Perform(a: Account, call: Call): (a': Account)
    requires a.session.future == Start
    requires forall j :: 0 <= j < |call.polls| ==> |call.polls[j]| == Depth(a.session.chain)
    ensures a'.session.future == Start && Depth(a'.session.chain) == Depth(a.session.chain)
  {
    if a.state.Open? then
      match call.fate
      case Passed(len) => Pass(a, a.state, 0, len)
      case _ => a
    else
      var (s, grant) := Await(a.session, call.polls);
      if grant.None? then a.(session := s)
      else
        match call.fate
        case Passed(len) => Pass(a.(session := s), Idle, grant.value, len)
        case _ => a.(session := s, forfeited := a.forfeited + grant.value)
  }

  /** Nothing is left of the grant that is still open. */
  predicate Spent(state: State) {
    state.Open? && state.done >= state.grant
  }

  function Pass(a: Account, state: State, grant: nat, len: nat): (a': Account)
    ensures a'.session == a.session
  {
    var next := Charged(state, grant, len);
    Account(a.session, next, a.passed + len, a.forfeited, a.closed + (if next.Idle? then 1 else 0),
            a.fitted + if next.Idle? && Spent(state) then 1 else 0)
  }

  function RunCalls(n: nat, calls: seq<Call>): (a: Account)
    requires n > 0 && forall i, j :: 0 <= i < |calls| && 0 <= j < |calls[i].polls| ==> |calls[i].polls[j]| == n
    ensures a.session.future == Start && Depth(a.session.chain) == n
  {
    if calls == [] then Account(Session(NewChain(n), Start, 0), Idle, 0, 0, 0, 0)
    else Perform(RunCalls(n, calls[..|calls| - 1]), calls[|calls| - 1])
  }

  function Remaining(state: State): nat {
    if state.Open? && state.done <= state.grant then state.grant - state.done else 0
  }

  /** What a wait begun in `s` has come to: the session is sound, and a grant is covered by the last pieces. */
  ghost predicate Awaited(s: Session, s': Session, grant: Option<nat>) {
    && Sound(s') && Depth(s'.chain) == Depth(s.chain)
    && UsedUp(Bank(s.chain)) + (if grant.Some? then 1 else 0) <= UsedUp(Bank(s'.chain))
    && s'.total == s.total + (if grant.Some? then grant.value else 0) && (grant.Some? ==> grant.value > 0)
    && (grant.Some? ==> forall i :: 0 <= i < Depth(s'.chain) ==> Balanced(Bank(s'.chain)[i], s'.total, grant.value))
  }

  /** One poll of a wait. */
  lemma PollAwaits(s: Session, gates: seq<Gate>)
    requires Sound(s) && |gates| == Depth(s.chain)
    ensures var s' := Step(s, PollEvent(gates));
            s'.total >= s.total
            && Awaited(s, s', if s'.future == Start then Some(s'.total - s.total) else None)
  {
    var s' := Step(s, PollEvent(gates));
    PollCounters(s, gates);
    PollUsesUp(s, gates);
    forall i | 0 <= i < |gates|
      ensures Balanced(Bank(s'.chain)[i], s'.total, s'.total - s.total)
    {
      assert CounterStep(s, gates, i);
    }
  }

  lemma DropAwaits(s: Session)
    requires Sound(s)
    ensures Awaited(s, s.(future := Start), None)
  {
  }

  lemma AwaitedTransitive(s: Session, s': Session, s'': Session, grant: Option<nat>)
    requires Awaited(s, s', None) && Awaited(s', s'', grant)
    ensures Awaited(s, s'', grant)
  {
  }

  /** A wait keeps the session sound, and what it returned is covered by the last piece of every limiter. */
  lemma {:induction false} AwaitIsSound(s: Session, polls: seq<seq<Gate>>)
    requires Sound(s) && forall j :: 0 <= j < |polls| ==> |polls[j]| == Depth(s.chain)
    ensures Awaited(s, Await(s, polls).0, Await(s, polls).1)
    decreases |polls|
  {
    if polls == [] {
      DropAwaits(s);
    } else {
      var s' := Step(s, PollEvent(polls[0]));
      PollAwaits(s, polls[0]);
      if s'.future != Start {
        AwaitIsSound(s', polls[1..]);
        AwaitedTransitive(s, s', Await(s', polls[1..]).0, Await(s', polls[1..]).1);
      }
    }
  }

  /**
   The books: every byte granted passed, was forfeited, or remains; each used-up grant was exceeded by at most `m` bytes
   if it was kept open by an exact fit, and by less than `m` otherwise; and it used up a piece of some limiter.
   */
  ghost predicate InBooks(a: Account, m: nat) {
    && Sound(a.session)
    && (a.state.Open? ==> a.state.done <= a.state.grant)
    && (forall i :: 0 <= i < Depth(a.session.chain) ==>
          Balanced(Bank(a.session.chain)[i], a.session.total, Remaining(a.state)))
    && a.session.total <= a.passed + a.forfeited + Remaining(a.state)
    && a.passed + a.forfeited + Remaining(a.state) <= a.session.total + Times(m, a.closed) - (a.closed - a.fitted)
    && a.fitted <= a.closed && a.closed + (if a.state.Open? then 1 else 0) <= UsedUp(Bank(a.session.chain))
  }

  lemma OpenCallKeepsBooks(a: Account, call: Call, m: nat)
    requires InBooks(a, m) && a.session.future == Start && a.state.Open?
    requires forall j :: 0 <= j < |call.polls| ==> |call.polls[j]| == Depth(a.session.chain)
    requires call.fate.Passed? ==> call.fate.len <= m
    ensures InBooks(Perform(a, call), m)
  {
    assert Times(m, a.closed + 1) == Times(m, a.closed) + m;
  }

  lemma ForfeitKeepsBooks(a: Account, s: Session, grant: nat, m: nat)
    requires InBooks(a, m) && a.state.Idle? && Awaited(a.session, s, Some(grant))
    ensures InBooks(a.(session := s, forfeited := a.forfeited + grant), m)
  {
  }

  lemma PassKeepsBooks(a: Account, s: Session, grant: nat, len: nat, m: nat)
    requires InBooks(a, m) && a.state.Idle? && Awaited(a.session, s, Some(grant)) && len <= m
    ensures InBooks(Pass(a.(session := s), Idle, grant, len), m)
  {
    assert Times(m, a.closed + 1) == Times(m, a.closed) + m;
  }

  lemma IdleCallKeepsBooks(a: Account, call: Call, m: nat)
    requires InBooks(a, m) && a.session.future == Start && a.state.Idle?
    requires forall j :: 0 <= j < |call.polls| ==> |call.polls[j]| == Depth(a.session.chain)
    requires call.fate.Passed? ==> call.fate.len <= m
    ensures InBooks(Perform(a, call), m)
  {
    AwaitIsSound(a.session, call.polls);
    var (s, grant) := Await(a.session, call.polls);
    if grant.Some? {
      if call.fate.Passed? {
        PassKeepsBooks(a, s, grant.value, call.fate.len, m);
      } else {
        ForfeitKeepsBooks(a, s, grant.value, m);
      }
    }
  }

  lemma NewBooks(n: nat, m: nat)
    requires n > 0
    ensures InBooks(RunCalls(n, []), m)
  {
    RunsAreSound(n, []);
    CallsUseUpPieces(n, []);
  }

  lemma CallKeepsBooks(a: Account, call: Call, m: nat)
    requires InBooks(a, m) && a.session.future == Start
    requires forall j :: 0 <= j < |call.polls| ==> |call.polls[j]| == Depth(a.session.chain)
    requires call.fate.Passed? ==> call.fate.len <= m
    ensures InBooks(Perform(a, call), m)
  {
    if a.state.Open? {
      OpenCallKeepsBooks(a, call, m);
    } else {
      IdleCallKeepsBooks(a, call, m);
    }
  }

  lemma {:induction false} BooksHold(n: nat, calls: seq<Call>, m: nat)
    requires n > 0 && forall i, j :: 0 <= i < |calls| && 0 <= j < |calls[i].polls| ==> |calls[i].polls[j]| == n
    requires forall i :: 0 <= i < |calls| && calls[i].fate.Passed? ==> calls[i].fate.len <= m
    ensures InBooks(RunCalls(n, calls), m)
  {
    if calls == [] {
      NewBooks(n, m);
    } else {
      BooksHold(n, calls[..|calls| - 1], m);
      CallKeepsBooks(RunCalls(n, calls[..|calls| - 1]), calls[|calls| - 1], m);
    }
  }

  /**
   The datagram throttle, end to end: with datagrams of at most `m` bytes, at every call boundary and for every limiter
   of the chain, the bytes passed are at least the pieces taken less the last piece and the forfeited grants, and at
   most the pieces taken plus one datagram for each used-up grant, less a byte unless it was kept open by an exact fit;
   and there are at most as many used-up grants as used-up pieces of all limiters.
   */
  lemma {:induction false} DatagramThrottle(n: nat, calls: seq<Call>, m: nat, i: nat)
    requires i < n && forall i, j :: 0 <= i < |calls| && 0 <= j < |calls[i].polls| ==> |calls[i].polls[j]| == n
    requires forall i :: 0 <= i < |calls| && calls[i].fate.Passed? ==> calls[i].fate.len <= m
    ensures var a := RunCalls(n, calls);
            var pieces := Bank(a.session.chain)[i].pieces;
            Sum(pieces) - Last(pieces) - a.forfeited <= a.passed
              <= Sum(pieces) + a.closed * m - (a.closed - a.fitted)
    ensures var a := RunCalls(n, calls); a.fitted <= a.closed <= UsedUp(Bank(a.session.chain))
  {
    BooksHold(n, calls, m);
    var a := RunCalls(n, calls);
    assert Balanced(Bank(a.session.chain)[i], a.session.total, Remaining(a.state));
    TimesIsProduct(m, a.closed);
  }

  /** Without failures and drops nothing is forfeited. */
  lemma {:induction false} NothingForfeitedIfAllPass(n: nat, calls: seq<Call>)
    requires n > 0 && forall i, j :: 0 <= i < |calls| && 0 <= j < |calls[i].polls| ==> |calls[i].polls[j]| == n
    requires forall i :: 0 <= i < |calls| ==> calls[i].fate.Passed?
    ensures RunCalls(n, calls).forfeited == 0
  {
    if calls != [] {
      NothingForfeitedIfAllPass(n, calls[..|calls| - 1]);
    }
  }

  /** Then the bytes passed alone are bounded on both sides. */
  lemma {:induction false} DatagramThrottleIfAllPass(n: nat, calls: seq<Call>, m: nat, i: nat)
    requires i < n && forall i, j :: 0 <= i < |calls| && 0 <= j < |calls[i].polls| ==> |calls[i].polls[j]| == n
    requires forall i :: 0 <= i < |calls| ==> calls[i].fate.Passed? && calls[i].fate.len <= m
    ensures var a := RunCalls(n, calls);
            var pieces := Bank(a.session.chain)[i].pieces;
            Sum(pieces) - Last(pieces) <= a.passed <= Sum(pieces) + a.closed * m - (a.closed - a.fitted)
  {
    NothingForfeitedIfAllPass(n, calls);
    DatagramThrottle(n, calls, m, i);
  }

  // ---------------------------------------------------------------------------------------------------------
  // Datagrams that pass uncharged
  // ---------------------------------------------------------------------------------------------------------

  /** A used-up grant covers at least itself and at most itself and one datagram, and that only if nothing was left. */
  lemma UsedUpGrantCovers(state: State, grant: nat, len: nat)
    requires state.Open? ==> state.done <= state.grant
    requires Charged(state, grant, len).Idle?
    ensures var g, covered := if state.Open? then state.grant else grant, if state.Open? then state.done + len else len;
            g <= covered <= g + len
            && (grant > 0 && len > 0 ==> (covered == g + len <==> state.Open? && Remaining(state) == 0))
  {
  }

  /** Call `i` took a grant and passed a datagram exactly as long. */
  predicate FitsExactly(n: nat, calls: seq<Call>, i: nat)
    requires n > 0 && forall i, j :: 0 <= i < |calls| && 0 <= j < |calls[i].polls| ==> |calls[i].polls[j]| == n
    requires i < |calls|
  {
    calls[i].fate.Passed?
    && 0 < calls[i].fate.len == RunCalls(n, calls[..i + 1]).session.total - RunCalls(n, calls[..i]).session.total
  }

  /** The last datagram that passed fitted its grant exactly. */
  ghost predicate LastFits(n: nat, calls: seq<Call>)
    requires n > 0 && forall i, j :: 0 <= i < |calls| && 0 <= j < |calls[i].polls| ==> |calls[i].polls[j]| == n
    decreases |calls|
  {
    calls != []
    && if calls[|calls| - 1].fate.Passed? then FitsExactly(n, calls, |calls| - 1)
       else LastFits(n, calls[..|calls| - 1])
  }

  lemma PerformSpends(a: Account, call: Call)
    requires Sound(a.session) && a.session.future == Start && (a.state.Open? ==> a.state.done <= a.state.grant)
    requires forall j :: 0 <= j < |call.polls| ==> |call.polls[j]| == Depth(a.session.chain)
    ensures var a' := Perform(a, call);
            Spent(a'.state) <==> if call.fate.Passed? then 0 < call.fate.len == a'.session.total - a.session.total
                                 else Spent(a.state)
  {
    AwaitIsSound(a.session, call.polls);
  }

  /** A bound on the datagrams of a run. */
  function Longest(calls: seq<Call>): (m: nat)
    ensures forall i :: 0 <= i < |calls| && calls[i].fate.Passed? ==> calls[i].fate.len <= m
  {
    if calls == [] then 0
    else
      var m, call := Longest(calls[..|calls| - 1]), calls[|calls| - 1];
      if call.fate.Passed? then Max(m, call.fate.len) else m
  }

  /** A grant is kept open with nothing left of it exactly if the last datagram that passed fitted its grant exactly. */
  lemma {:induction false} EmptyGrantKeptIffExactFit(n: nat, calls: seq<Call>)
    requires n > 0 && forall i, j :: 0 <= i < |calls| && 0 <= j < |calls[i].polls| ==> |calls[i].polls[j]| == n
    ensures Spent(RunCalls(n, calls).state) <==> LastFits(n, calls)
  {
    if calls != [] {
      var prev, k := calls[..|calls| - 1], |calls| - 1;
      EmptyGrantKeptIffExactFit(n, prev);
      BooksHold(n, prev, Longest(prev));
      PerformSpends(RunCalls(n, prev), calls[k]);
      assert calls[..k + 1] == calls;
    }
  }

  /**
   A datagram passes although nothing granted is left and no new grant is taken exactly if the datagram before it
   fitted its grant exactly; it may then be of any length.
   */
  lemma {:induction false} UnchargedIffExactFit(n: nat, calls: seq<Call>, call: Call)
    requires n > 0 && forall i, j :: 0 <= i < |calls| && 0 <= j < |calls[i].polls| ==> |calls[i].polls[j]| == n
    requires call.fate.Passed? && call.fate.len > 0 && forall j :: 0 <= j < |call.polls| ==> |call.polls[j]| == n
    ensures var a, a' := RunCalls(n, calls), Perform(RunCalls(n, calls), call);
            (a'.passed == a.passed + call.fate.len && a'.session == a.session && Remaining(a.state) == 0)
              <==> LastFits(n, calls)
  {
    EmptyGrantKeptIffExactFit(n, calls);
    BooksHold(n, calls, Longest(calls));
    AwaitIsSound(RunCalls(n, calls).session, call.polls);
  }

  /** A run that shows it: under a limiter of weight 5, a datagram of 5 bytes lets one of 1000 bytes through. */
  lemma ExactFitLetsOneThrough()
    ensures var calls := [Call([[Gate(5, false, true)]], Passed(5)), Call([], Passed(1000))];
            var a := RunCalls(1, calls);
            a.passed == 1005 && a.session.total == 5 && a.closed == a.fitted == 1
  {
    var first, second := Call([[Gate(5, false, true)]], Passed(5)), Call([], Passed(1000));
    assert [first, second][..1] == [first] && [first][..0] == [];
    var s := Session(NewChain(1), Start, 0);
    assert Await(s, first.polls) == (Step(s, PollEvent(first.polls[0])), Some(5));
    assert RunCalls(1, [first]) == Perform(RunCalls(1, []), first);
    assert RunCalls(1, [first]).state == Open(5, 5);
    assert RunCalls(1, [first, second]) == Perform(RunCalls(1, [first]), second);
  }
}
