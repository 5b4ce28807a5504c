/**
 Whole runs of one session: any sequence of polls, with any weights, any readiness and any `set_limit` in between,
 and with the pending call dropped at any moment.
 */
module RateRuns {
  import opened Common
  import opened Arithmetic
  import opened RateChain

  /** `future` is `Start` when no call is pending; `total` is the sum of what completed calls returned. */
  datatype Session = Session(chain: Chain, future: Future, total: nat)

  datatype Event = PollEvent(gates: seq<Gate>) | Drop

  function NewChain(n: nat): (c: Chain)
    requires n > 0
    ensures Depth(c) == n
  {
    if n == 1 then Root([]) else Child(NewChain(n - 1), 0, 0, [])
  }

  predicate Matches(depth: nat, e: Event) {
    e.PollEvent? ==> |e.gates| == depth
  }

  function Step(s: Session, e: Event): (s': Session)
    requires Fits(s.chain, s.future) && Matches(Depth(s.chain), e)
    ensures Fits(s'.chain, s'.future) && Depth(s'.chain) == Depth(s.chain)
  {
    match e
    case Drop => s.(future := Start)
    case PollEvent(gates) =>
      var (c, p) := Poll(s.chain, s.future, gates);
      if p.Pending? then Session(c, p.future, s.total) else Session(c, Start, s.total + p.granted)
  }

  lemma StepIsPoll(s: Session, gates: seq<Gate>, c: Chain, p: Polled)
    requires Fits(s.chain, s.future) && |gates| == Depth(s.chain) && Poll(s.chain, s.future, gates) == (c, p)
    ensures Step(s, PollEvent(gates))
         == if p.Pending? then Session(c, p.future, s.total) else Session(c, Start, s.total + p.granted)
    ensures p.Pending? ==> p.future != Start && Fits(c, p.future)
    ensures p.Ready? ==> p.granted > 0
  {
  }

  function Run(n: nat, evs: seq<Event>): (s: Session)
    requires n > 0 && forall i :: 0 <= i < |evs| ==> Matches(n, evs[i])
    ensures Fits(s.chain, s.future) && Depth(s.chain) == n
  {
    if evs == [] then Session(NewChain(n), Start, 0) else Step(Run(n, evs[..|evs| - 1]), evs[|evs| - 1])
  }

  lemma RunSnoc(n: nat, evs: seq<Event>, e: Event)
    requires n > 0 && Matches(n, e) && forall i :: 0 <= i < |evs| ==> Matches(n, evs[i])
    ensures Run(n, evs + [e]) == Step(Run(n, evs), e)
  {
    assert (evs + [e])[..|evs|] == evs;
  }

  // ---------------------------------------------------------------------------------------------------------
  // Conservation, lazy acquisition, cancellation
  // ---------------------------------------------------------------------------------------------------------

  /** All pieces taken are returned or left, and what is left (plus `spare`) fits in the last piece. */
  predicate Balanced(k: Counter, total: nat, spare: nat) {
    Sum(k.pieces) == total + k.left && k.left + spare <= Last(k.pieces)
  }

  ghost predicate Sound(s: Session) {
    Fits(s.chain, s.future) && Settled(s.chain)
    && forall i :: 0 <= i < Depth(s.chain) ==> Balanced(Bank(s.chain)[i], s.total, 0)
  }

  /** A limiter gives at most one piece, and only to a session that has returned everything it took before. */
  predicate TookLazily(k: Counter, k': Counter, offered: nat) {
    k'.pieces == k.pieces || (k.left == 0 && offered > 0 && k'.pieces == k.pieces + [offered])
  }

  lemma ChargeBalanced(k: Counter, w: nat, total: nat)
    requires Balanced(k, total, 0) && w > 0
    ensures Balanced(Charge(k, w), total, 0) && Charge(k, w).left > 0 && TookLazily(k, Charge(k, w), w)
  {
    SumSnoc(k.pieces, w);
  }

  /** Every counter after one poll is the charged or the untouched old counter, less the value returned. */
  lemma {:induction false} PollCounters(s: Session, gates: seq<Gate>)
    requires Sound(s) && |gates| == Depth(s.chain)
    ensures Settled(Step(s, PollEvent(gates)).chain)
    ensures forall i :: 0 <= i < |gates| ==> CounterStep(s, gates, i)
  {
    PollRefinesBank(s.chain, s.future, gates);
    var s' := Step(s, PollEvent(gates));
    var b, ws := Bank(s.chain), Offer(s.future, gates);
    forall i | 0 <= i < |gates|
      ensures CounterStep(s, gates, i)
    {
      ChargeBalanced(b[i], ws[i], s.total);
    }
  }

  ghost predicate CounterStep(s: Session, gates: seq<Gate>, i: nat)
    requires Fits(s.chain, s.future) && |gates| == Depth(s.chain) && i < |gates|
  {
    var s' := Step(s, PollEvent(gates));
    var k, k', w := Bank(s.chain)[i], Bank(s'.chain)[i], Offer(s.future, gates)[i];
    var paid := s'.total - s.total;
    TookLazily(k, k', w) && Balanced(k', s'.total, paid) && (k' == k || k'.left + paid == Charge(k, w).left)
  }

  lemma {:induction false} NewChainIsSound(n: nat)
    requires n > 0
    ensures Settled(NewChain(n))
    ensures forall i :: 0 <= i < n ==> Bank(NewChain(n))[i] == Counter(0, [])
  {
    if n > 1 {
      NewChainIsSound(n - 1);
    }
  }

  /** `Sound` holds in every reachable state, whatever was dropped and however the weights changed. */
  lemma {:induction false} RunsAreSound(n: nat, evs: seq<Event>)
    requires n > 0 && forall i :: 0 <= i < |evs| ==> Matches(n, evs[i])
    ensures Sound(Run(n, evs))
  {
    if evs == [] {
      NewChainIsSound(n);
    } else {
      var s, e := Run(n, evs[..|evs| - 1]), evs[|evs| - 1];
      RunsAreSound(n, evs[..|evs| - 1]);
      if e.PollEvent? {
        PollCounters(s, e.gates);
        forall i | 0 <= i < n
          ensures Balanced(Bank(Step(s, e).chain)[i], Step(s, e).total, 0)
        {
          assert CounterStep(s, e.gates, i);
        }
      }
    }
  }

  /**
   Lazy acquisition: the last event of a run made the session take at most one piece from limiter `i`, and only if
   everything taken there before had been returned at the bottom of the chain.
   */
  lemma PiecesAreTakenLazily(n: nat, evs: seq<Event>, i: nat)
    requires i < n && evs != [] && forall j :: 0 <= j < |evs| ==> Matches(n, evs[j])
    ensures var before, after := Run(n, evs[..|evs| - 1]), Run(n, evs);
            var k, k' := Bank(before.chain)[i], Bank(after.chain)[i];
            k'.pieces == k.pieces
            || (Sum(k.pieces) == before.total && |k'.pieces| == |k.pieces| + 1 && k.pieces == k'.pieces[..|k.pieces|])
  {
    var s, e := Run(n, evs[..|evs| - 1]), evs[|evs| - 1];
    RunsAreSound(n, evs[..|evs| - 1]);
    assert Balanced(Bank(s.chain)[i], s.total, 0);
    if e.PollEvent? {
      PollCounters(s, e.gates);
      assert CounterStep(s, e.gates, i);
    }
  }

  /**
   Pieces are waited for: an event that makes the session take a piece from limiter `i` is a poll in which the token
   bucket of `i` is ready, or in which it has none; and the piece is the weight shown in this poll, or the one shown
   when the pending call began to wait for it.
   */
  lemma {:induction false} PiecesAreWaitedFor(n: nat, evs: seq<Event>, i: nat)
    requires i < n && evs != [] && forall j :: 0 <= j < |evs| ==> Matches(n, evs[j])
    ensures var before, after, e := Run(n, evs[..|evs| - 1]), Run(n, evs), evs[|evs| - 1];
            var k, k' := Bank(before.chain)[i].pieces, Bank(after.chain)[i].pieces;
            k' != k ==>
              && e.PollEvent? && (e.gates[i].ready || !e.gates[i].limited)
              && k' == k + [if WaitsAt(before.future, n, i) then PieceOf(before.future) else e.gates[i].weight]
  {
    var s, e := Run(n, evs[..|evs| - 1]), evs[|evs| - 1];
    if e.PollEvent? {
      RunsAreSound(n, evs[..|evs| - 1]);
      PollTakesWhatIsAdmitted(s, e.gates, i);
      OfferIsShownOrCaptured(s.chain, s.future, e.gates, i);
    }
  }

  lemma {:induction false} PollTakesWhatIsAdmitted(s: Session, gates: seq<Gate>, i: nat)
    requires Sound(s) && |gates| == Depth(s.chain) && i < |gates|
    ensures var k, k' := Bank(s.chain)[i].pieces, Bank(Step(s, PollEvent(gates)).chain)[i].pieces;
            k' != k ==> Admits(s.future, gates, i) && k' == k + [Offer(s.future, gates)[i]]
  {
    var (c, p) := Poll(s.chain, s.future, gates);
    StepIsPoll(s, gates, c, p);
    PollRefinesBank(s.chain, s.future, gates);
    PollCompletesIff(s.chain, s.future, gates);
    assert Bank(s.chain)[i].left == 0 || Charge(Bank(s.chain)[i], Offer(s.future, gates)[i]) == Bank(s.chain)[i];
  }

  // ---------------------------------------------------------------------------------------------------------
  // Exact charging under fixed weights
  // ---------------------------------------------------------------------------------------------------------

  /** Limiter `i` keeps the weight `w` during the whole run; the other weights may change. */
  ghost predicate KeepsWeight(n: nat, evs: seq<Event>, i: nat, w: NonZeroU32)
    requires i < n && forall j :: 0 <= j < |evs| ==> Matches(n, evs[j])
  {
    forall j :: 0 <= j < |evs| && evs[j].PollEvent? ==> Matches(n, evs[j]) && evs[j].gates[i].weight == w
  }

  /** A captured piece of limiter `i`, if the call waits for it, is `w`. */
  predicate Captured(f: Future, depth: nat, i: nat, w: nat)
    requires i < depth
  {
    (f.OnLimiter? && i == depth - 1 ==> f.piece == w)
    && (f.OnUpper? && i < depth - 1 ==> Captured(f.upper, depth - 1, i, w))
  }

  ghost predicate AllAre(pieces: seq<nat>, w: nat) {
    forall j :: 0 <= j < |pieces| ==> pieces[j] == w
  }

  lemma {:induction false} SumOfEqual(pieces: seq<nat>, w: nat)
    requires AllAre(pieces, w)
    ensures Sum(pieces) == |pieces| * w
  {
    if pieces != [] {
      SumOfEqual(pieces[..|pieces| - 1], w);
    }
  }

  lemma {:induction false} OfferIsWeight(f: Future, gates: seq<Gate>, i: nat, w: NonZeroU32)
    requires i < |gates| && gates[i].weight == w && Captured(f, |gates|, i, w)
    ensures Offer(f, gates)[i] == w
    decreases |gates|
  {
    if i < |gates| - 1 {
      OfferIsWeight(UpperFuture(f), gates[..|gates| - 1], i, w);
    }
  }

  lemma {:induction false} CaptureIsWeight(c: Chain, f: Future, gates: seq<Gate>, i: nat, w: NonZeroU32)
    requires |gates| == Depth(c) && Fits(c, f) && i < |gates|
    requires gates[i].weight == w && Captured(f, |gates|, i, w)
    requires Poll(c, f, gates).1.Pending?
    ensures Captured(Poll(c, f, gates).1.future, |gates|, i, w)
  {
    if c.Child? && c.upperRemainder == 0 && i < |gates| - 1 {
      var up := gates[..|gates| - 1];
      if Poll(c.upper, UpperFuture(f), up).1.Pending? {
        CaptureIsWeight(c.upper, UpperFuture(f), up, i, w);
      }
    }
  }

  lemma {:induction false} PollKeepsCapture(s: Session, gates: seq<Gate>, i: nat, w: NonZeroU32)
    requires Fits(s.chain, s.future) && |gates| == Depth(s.chain) && i < |gates| && gates[i].weight == w
    requires Captured(s.future, |gates|, i, w)
    ensures Captured(Step(s, PollEvent(gates)).future, |gates|, i, w)
  {
    var (c, p) := Poll(s.chain, s.future, gates);
    StepIsPoll(s, gates, c, p);
    if p.Pending? {
      CaptureIsWeight(s.chain, s.future, gates, i, w);
    }
  }

  lemma {:induction false} LazyKeepsWeight(k: Counter, k': Counter, w: nat)
    requires TookLazily(k, k', w) && AllAre(k.pieces, w)
    ensures AllAre(k'.pieces, w)
  {
  }

  lemma {:induction false} PollKeepsWeight(s: Session, gates: seq<Gate>, i: nat, w: NonZeroU32)
    requires Sound(s) && |gates| == Depth(s.chain) && i < |gates| && gates[i].weight == w
    requires Captured(s.future, |gates|, i, w) && AllAre(Bank(s.chain)[i].pieces, w)
    ensures Captured(Step(s, PollEvent(gates)).future, |gates|, i, w)
    ensures AllAre(Bank(Step(s, PollEvent(gates)).chain)[i].pieces, w)
  {
    PollKeepsCapture(s, gates, i, w);
    OfferIsWeight(s.future, gates, i, w);
    PollCounters(s, gates);
    assert CounterStep(s, gates, i);
    LazyKeepsWeight(Bank(s.chain)[i], Bank(Step(s, PollEvent(gates)).chain)[i], w);
  }

  /** Every piece taken from a limiter of constant weight is that weight. */
  lemma {:induction false} PiecesAreWeight(n: nat, evs: seq<Event>, i: nat, w: NonZeroU32)
    requires i < n && forall j :: 0 <= j < |evs| ==> Matches(n, evs[j])
    requires KeepsWeight(n, evs, i, w)
    ensures Captured(Run(n, evs).future, n, i, w) && AllAre(Bank(Run(n, evs).chain)[i].pieces, w)
  {
    if evs == [] {
      NewChainIsSound(n);
    } else {
      var prev, e := evs[..|evs| - 1], evs[|evs| - 1];
      PiecesAreWeight(n, prev, i, w);
      RunsAreSound(n, prev);
      if e.PollEvent? {
        PollKeepsWeight(Run(n, prev), e.gates, i, w);
      }
    }
  }

  /** The last event of the run completed a call. */
  predicate Completed(n: nat, evs: seq<Event>)
    requires n > 0 && forall j :: 0 <= j < |evs| ==> Matches(n, evs[j])
  {
    evs != [] && Run(n, evs).total > Run(n, evs[..|evs| - 1]).total
  }

  /** At any moment of a run `p` pieces of weight `w` cover the returned bytes, and `p - 1` do not exceed them. */
  lemma ChargeBounds(n: nat, evs: seq<Event>, i: nat, w: NonZeroU32)
    requires i < n && forall j :: 0 <= j < |evs| ==> Matches(n, evs[j])
    requires KeepsWeight(n, evs, i, w)
    ensures var p := |Bank(Run(n, evs).chain)[i].pieces|;
            p * w - w <= Run(n, evs).total <= p * w == Run(n, evs).total + Bank(Run(n, evs).chain)[i].left
  {
    RunsAreSound(n, evs);
    PiecesAreWeight(n, evs, i, w);
    SumOfEqual(Bank(Run(n, evs).chain)[i].pieces, w);
    assert Balanced(Bank(Run(n, evs).chain)[i], Run(n, evs).total, 0);
  }

  /** What a completed call returned is not left anywhere, so less than the last piece is left. */
  lemma CompletedLeavesRoom(n: nat, evs: seq<Event>, i: nat)
    requires i < n && forall j :: 0 <= j < |evs| ==> Matches(n, evs[j])
    requires Completed(n, evs)
    ensures Bank(Run(n, evs).chain)[i].left < Last(Bank(Run(n, evs).chain)[i].pieces)
  {
    var s, e := Run(n, evs[..|evs| - 1]), evs[|evs| - 1];
    RunsAreSound(n, evs[..|evs| - 1]);
    PollCounters(s, e.gates);
    assert CounterStep(s, e.gates, i);
  }

  lemma {:induction false} CompletedLeavesLessThanWeight(n: nat, evs: seq<Event>, i: nat, w: NonZeroU32)
    requires i < n && forall j :: 0 <= j < |evs| ==> Matches(n, evs[j])
    requires KeepsWeight(n, evs, i, w) && Completed(n, evs)
    ensures Bank(Run(n, evs).chain)[i].left < w
  {
    CompletedLeavesRoom(n, evs, i);
    PiecesAreWeight(n, evs, i, w);
  }

  /**
   Exact charging at every depth: right after a completed call, the session has taken from each limiter of constant
   weight `w` exactly the ceiling of the returned total over `w` pieces.
   */
  lemma {:induction false} ExactCharge(n: nat, evs: seq<Event>, i: nat, w: NonZeroU32)
    requires i < n && forall j :: 0 <= j < |evs| ==> Matches(n, evs[j])
    requires KeepsWeight(n, evs, i, w) && Completed(n, evs)
    ensures |Bank(Run(n, evs).chain)[i].pieces| == (Run(n, evs).total + w - 1) / w
  {
    ChargeBounds(n, evs, i, w);
    CompletedLeavesLessThanWeight(n, evs, i, w);
    CeilingDivision(Run(n, evs).total, w, |Bank(Run(n, evs).chain)[i].pieces|);
  }

  // ---------------------------------------------------------------------------------------------------------
  // The values returned: the next piece boundary of any limiter
  // ---------------------------------------------------------------------------------------------------------

  /** The piece in use when a call completes covers everything from the total before the call on. */
  lemma LastPieceSpansCall(n: nat, evs: seq<Event>, i: nat, w: NonZeroU32)
    requires i < n && forall j :: 0 <= j < |evs| ==> Matches(n, evs[j])
    requires KeepsWeight(n, evs, i, w) && Completed(n, evs)
    ensures Run(n, evs).total + Bank(Run(n, evs).chain)[i].left - w <= Run(n, evs[..|evs| - 1]).total
  {
    var s, e := Run(n, evs[..|evs| - 1]), evs[|evs| - 1];
    RunsAreSound(n, evs[..|evs| - 1]);
    PollCounters(s, e.gates);
    assert CounterStep(s, e.gates, i);
    PiecesAreWeight(n, evs, i, w);
  }

  /** No multiple of `w` lies strictly between two totals, and the later one is a multiple if nothing is left. */
  lemma {:induction false} NoBoundaryBetween(n: nat, evs: seq<Event>, i: nat, w: NonZeroU32, t: nat)
    requires i < n && forall j :: 0 <= j < |evs| ==> Matches(n, evs[j])
    requires KeepsWeight(n, evs, i, w) && Completed(n, evs)
    ensures Run(n, evs[..|evs| - 1]).total < t < Run(n, evs).total ==> !IsMultiple(t, w)
    ensures Bank(Run(n, evs).chain)[i].left == 0 ==> IsMultiple(Run(n, evs).total, w)
  {
    LastPieceSpansCall(n, evs, i, w);
    ChargeBounds(n, evs, i, w);
    var p := |Bank(Run(n, evs).chain)[i].pieces|;
    MultiplesNear(t, w, p);
    MultiplesNear(p * w, w, p);
  }

  /** With fixed weights a completed call returns exactly up to the next multiple of any weight of the chain. */
  lemma {:induction false} ReturnsReachNextBoundary(n: nat, evs: seq<Event>, ws: seq<NonZeroU32>)
    requires n > 0 && |ws| == n && forall j :: 0 <= j < |evs| ==> Matches(n, evs[j])
    requires forall i :: 0 <= i < n ==> KeepsWeight(n, evs, i, ws[i])
    requires Completed(n, evs)
    ensures exists i :: 0 <= i < n && IsMultiple(Run(n, evs).total, ws[i])
    ensures forall i, t: nat ::
              0 <= i < n && Run(n, evs[..|evs| - 1]).total < t < Run(n, evs).total ==> !IsMultiple(t, ws[i])
  {
    RunsAreSound(n, evs);
    SettledHasEmptyCounter(Run(n, evs).chain);
    var k :| 0 <= k < n && Bank(Run(n, evs).chain)[k].left == 0;
    NoBoundaryBetween(n, evs, k, ws[k], 0);
    forall i, t: nat | 0 <= i < n && Run(n, evs[..|evs| - 1]).total < t < Run(n, evs).total
      ensures !IsMultiple(t, ws[i])
    {
      NoBoundaryBetween(n, evs, i, ws[i], t);
    }
  }

  /** All limiters keep their weights during the run. */
  ghost predicate KeepsWeights(n: nat, evs: seq<Event>, ws: seq<NonZeroU32>) {
    n > 0 && |ws| == n && (forall j :: 0 <= j < |evs| ==> Matches(n, evs[j]))
    && forall i :: 0 <= i < n ==> KeepsWeight(n, evs, i, ws[i])
  }

  ghost predicate SameWeights(ws: seq<NonZeroU32>, vs: seq<NonZeroU32>) {
    (forall i :: 0 <= i < |ws| ==> ws[i] in vs) && (forall i :: 0 <= i < |vs| ==> vs[i] in ws)
  }

  lemma NotAhead(n: nat, evs: seq<Event>, ws: seq<NonZeroU32>, m: nat, es: seq<Event>, vs: seq<NonZeroU32>)
    requires KeepsWeights(n, evs, ws) && KeepsWeights(m, es, vs) && SameWeights(ws, vs)
    requires Completed(n, evs) && Completed(m, es)
    requires Run(n, evs[..|evs| - 1]).total == Run(m, es[..|es| - 1]).total
    ensures Run(n, evs).total <= Run(m, es).total
  {
    ReturnsReachNextBoundary(n, evs, ws);
    ReturnsReachNextBoundary(m, es, vs);
    var k :| 0 <= k < m && IsMultiple(Run(m, es).total, vs[k]);
    var i :| 0 <= i < n && ws[i] == vs[k];
    assert IsMultiple(Run(m, es).total, ws[i]);
  }

  /** How many calls of the run were completed. */
  function Calls(n: nat, evs: seq<Event>): nat
    requires n > 0 && forall j :: 0 <= j < |evs| ==> Matches(n, evs[j])
  {
    if evs == [] then 0 else Calls(n, evs[..|evs| - 1]) + if Completed(n, evs) then 1 else 0
  }

  lemma KeepsWeightsBefore(n: nat, evs: seq<Event>, ws: seq<NonZeroU32>)
    requires KeepsWeights(n, evs, ws) && evs != []
    ensures KeepsWeights(n, evs[..|evs| - 1], ws)
  {
    var prev := evs[..|evs| - 1];
    forall i | 0 <= i < n
      ensures KeepsWeight(n, prev, i, ws[i])
    {
      assert KeepsWeight(n, evs, i, ws[i]);
    }
  }

  /**
   The returned values depend on the set of weights only: two sessions whose chains show the same weights, in whatever
   order, at whatever depths and with whatever repetitions, waits and drops, have returned the same total after equal
   numbers of completed calls.
   */
  lemma {:induction false} CallsAgree(n: nat, evs: seq<Event>, ws: seq<NonZeroU32>, m: nat, es: seq<Event>,
                                      vs: seq<NonZeroU32>)
    requires KeepsWeights(n, evs, ws) && KeepsWeights(m, es, vs) && SameWeights(ws, vs)
    requires Calls(n, evs) == Calls(m, es)
    ensures Run(n, evs).total == Run(m, es).total
    decreases |evs| + |es|
  {
    if evs != [] {
      KeepsWeightsBefore(n, evs, ws);
      TotalGrows(n, evs);
    }
    if es != [] {
      KeepsWeightsBefore(m, es, vs);
      TotalGrows(m, es);
    }
    if evs != [] && !Completed(n, evs) {
      CallsAgree(n, evs[..|evs| - 1], ws, m, es, vs);
    } else if es != [] && !Completed(m, es) {
      CallsAgree(n, evs, ws, m, es[..|es| - 1], vs);
    } else if evs != [] && es != [] {
      CallsAgree(n, evs[..|evs| - 1], ws, m, es[..|es| - 1], vs);
      NotAhead(n, evs, ws, m, es, vs);
      NotAhead(m, es, vs, n, evs, ws);
    }
  }

  lemma TotalGrows(n: nat, evs: seq<Event>)
    requires n > 0 && evs != [] && forall j :: 0 <= j < |evs| ==> Matches(n, evs[j])
    ensures Run(n, evs[..|evs| - 1]).total <= Run(n, evs).total
  {
  }

  /** A positive multiple of any of the weights. */
  ghost predicate IsBoundary(x: nat, ws: seq<NonZeroU32>) {
    x > 0 && exists i :: 0 <= i < |ws| && IsMultiple(x, ws[i])
  }

  ghost function Boundaries(t: nat, ws: seq<NonZeroU32>): set<nat> {
    set x: nat | x <= t && IsBoundary(x, ws)
  }

  lemma NextBoundary(t: nat, t': nat, ws: seq<NonZeroU32>)
    requires t < t' && IsBoundary(t', ws)
    requires forall i, x: nat :: 0 <= i < |ws| && t < x < t' ==> !IsMultiple(x, ws[i])
    ensures t' in Boundaries(t', ws) && |Boundaries(t', ws)| == |Boundaries(t, ws)| + 1
  {
    assert Boundaries(t', ws) == Boundaries(t, ws) + {t'};
  }

  /** The values returned, exactly: with fixed weights the `k`-th completed call returns up to the `k`-th boundary. */
  lemma {:induction false} CallsReachBoundaries(n: nat, evs: seq<Event>, ws: seq<NonZeroU32>)
    requires KeepsWeights(n, evs, ws)
    ensures Calls(n, evs) == |Boundaries(Run(n, evs).total, ws)|
    ensures Run(n, evs).total > 0 ==> Run(n, evs).total in Boundaries(Run(n, evs).total, ws)
  {
    if evs == [] {
      assert Boundaries(0, ws) == {};
    } else {
      var prev := evs[..|evs| - 1];
      KeepsWeightsBefore(n, evs, ws);
      TotalGrows(n, evs);
      CallsReachBoundaries(n, prev, ws);
      if Completed(n, evs) {
        ReturnsReachNextBoundary(n, evs, ws);
        NextBoundary(Run(n, prev).total, Run(n, evs).total, ws);
      }
    }
  }

  // ---------------------------------------------------------------------------------------------------------
  // The number of calls
  // ---------------------------------------------------------------------------------------------------------

  /** The pieces of which nothing is left. */
  function Exhausted(k: Counter): int {
    |k.pieces| - if k.left > 0 then 1 else 0
  }

  function UsedUp(b: seq<Counter>): int {
    if b == [] then 0 else UsedUp(b[..|b| - 1]) + Exhausted(b[|b| - 1])
  }

  lemma {:induction false} UsedUpGrows(b: seq<Counter>, b': seq<Counter>)
    requires |b| == |b'| && forall i :: 0 <= i < |b| ==> Exhausted(b[i]) <= Exhausted(b'[i])
    ensures UsedUp(b) <= UsedUp(b')
    ensures (exists i :: 0 <= i < |b| && Exhausted(b[i]) < Exhausted(b'[i])) ==> UsedUp(b) < UsedUp(b')
  {
    if b != [] {
      UsedUpGrows(b[..|b| - 1], b'[..|b| - 1]);
    }
  }

  lemma CompletedUsesUp(b: seq<Counter>, ws: seq<nat>, c': Chain, x: nat)
    requires |b| == |ws| && CompletesBank(b, ws, c', x) && x > 0 && forall i :: 0 <= i < |ws| ==> ws[i] > 0
    ensures UsedUp(b) < UsedUp(Bank(c'))
  {
    var full := Refill(b, ws, |b|);
    var i :| 0 <= i < |full| && full[i].left == x;
    assert Exhausted(b[i]) < Exhausted(Bank(c')[i]);
    UsedUpGrows(b, Bank(c'));
  }

  lemma SuspendedUsesUpNothing(b: seq<Counter>, ws: seq<nat>, c': Chain, k: nat)
    requires |b| == |ws| && SuspendsBank(b, ws, c', k) && forall i :: 0 <= i < |ws| ==> ws[i] > 0
    ensures UsedUp(b) <= UsedUp(Bank(c'))
  {
    UsedUpGrows(b, Bank(c'));
  }

  /** A completed call uses up a piece of some limiter. */
  lemma PollUsesUp(s: Session, gates: seq<Gate>)
    requires Sound(s) && |gates| == Depth(s.chain)
    ensures var s' := Step(s, PollEvent(gates));
            UsedUp(Bank(s.chain)) + (if s'.total > s.total then 1 else 0) <= UsedUp(Bank(s'.chain))
  {
    PollRefinesBank(s.chain, s.future, gates);
    var (c', p) := Poll(s.chain, s.future, gates);
    match p {
      case Ready(x) => CompletedUsesUp(Bank(s.chain), Offer(s.future, gates), c', x);
      case Pending(f) => SuspendedUsesUpNothing(Bank(s.chain), Offer(s.future, gates), c', Awaited(f, |gates|));
    }
  }

  /** A session has not completed more calls than it has used up pieces of all its limiters together. */
  lemma {:induction false} CallsUseUpPieces(n: nat, evs: seq<Event>)
    requires n > 0 && forall j :: 0 <= j < |evs| ==> Matches(n, evs[j])
    ensures Calls(n, evs) <= UsedUp(Bank(Run(n, evs).chain))
  {
    if evs == [] {
      NewChainIsSound(n);
      UsedUpNothing(Bank(NewChain(n)));
    } else {
      CallsUseUpPieces(n, evs[..|evs| - 1]);
      RunsAreSound(n, evs[..|evs| - 1]);
      if evs[|evs| - 1].PollEvent? {
        PollUsesUp(Run(n, evs[..|evs| - 1]), evs[|evs| - 1].gates);
      }
    }
  }

  lemma {:induction false} UsedUpNothing(b: seq<Counter>)
    requires forall i :: 0 <= i < |b| ==> b[i] == Counter(0, [])
    ensures UsedUp(b) == 0
  {
    if b != [] {
      UsedUpNothing(b[..|b| - 1]);
    }
  }
}
