/** Dropped calls change nothing under fixed limits, and many sessions may share one limiter. */
module RateSharing {
  import opened Common
  import opened Arithmetic
  import opened RateChain
  import opened RateRuns

  // ---------------------------------------------------------------------------------------------------------
  // Dropping a pending call
  // ---------------------------------------------------------------------------------------------------------

  /** The gates show the limits `cfg`; only readiness is free. */
  predicate Shows(gates: seq<Gate>, cfg: seq<Gate>) {
    |gates| == |cfg|
    && forall i :: 0 <= i < |cfg| ==> gates[i].weight == cfg[i].weight && gates[i].limited == cfg[i].limited
  }

  /** The pending call began to wait under the limits `cfg`. */
  predicate WaitsUnder(f: Future, cfg: seq<Gate>)
    requires |cfg| > 0
    decreases |cfg|
  {
    match f
    case Start => true
    case OnLimiter(piece) => cfg[|cfg| - 1].limited && piece == cfg[|cfg| - 1].weight
    case OnUpper(g) => |cfg| > 1 && WaitsUnder(g, cfg[..|cfg| - 1])
  }

  /** Dropping a pending call and calling again is the same as going on with it. */
  lemma {:induction false} RestartIsResume(c: Chain, f: Future, gates: seq<Gate>, cfg: seq<Gate>)
    requires |gates| == Depth(c) && Fits(c, f) && Shows(gates, cfg) && WaitsUnder(f, cfg)
    ensures Poll(c, f, gates) == Poll(c, Start, gates)
    ensures Poll(c, f, gates).1.Pending? ==> WaitsUnder(Poll(c, f, gates).1.future, cfg)
  {
    if c.Child? && c.upperRemainder == 0 {
      RestartIsResume(c.upper, UpperFuture(f), gates[..|gates| - 1], cfg[..|gates| - 1]);
    }
  }

  lemma StepsAgree(s: Session, t: Session, gates: seq<Gate>, cfg: seq<Gate>)
    requires |gates| == Depth(s.chain) && Shows(gates, cfg)
    requires s.chain == t.chain && s.total == t.total
    requires Fits(s.chain, s.future) && WaitsUnder(s.future, cfg)
    requires Fits(s.chain, t.future) && WaitsUnder(t.future, cfg)
    ensures Step(s, PollEvent(gates)) == Step(t, PollEvent(gates)) && WaitsUnder(Step(s, PollEvent(gates)).future, cfg)
  {
    RestartIsResume(s.chain, s.future, gates, cfg);
    RestartIsResume(t.chain, t.future, gates, cfg);
  }

  function WithoutDrops(evs: seq<Event>): (r: seq<Event>)
    ensures forall e :: e in r ==> e in evs
  {
    if evs == [] then []
    else if evs[|evs| - 1].Drop? then WithoutDrops(evs[..|evs| - 1])
    else WithoutDrops(evs[..|evs| - 1]) + [evs[|evs| - 1]]
  }

  lemma WithoutDropsMatches(n: nat, evs: seq<Event>)
    requires forall j :: 0 <= j < |evs| ==> Matches(n, evs[j])
    ensures forall j :: 0 <= j < |WithoutDrops(evs)| ==> Matches(n, WithoutDrops(evs)[j])
  {
    forall j | 0 <= j < |WithoutDrops(evs)|
      ensures Matches(n, WithoutDrops(evs)[j])
    {
      assert WithoutDrops(evs)[j] in WithoutDrops(evs);
    }
  }

  /**
   Cancellation is invisible: if no `set_limit` intervenes, a run with drops anywhere leaves the same session and has
   returned the same total as the run in which every pending call is kept.
   */
  lemma {:induction false} DropsAreInvisible(n: nat, evs: seq<Event>, cfg: seq<Gate>)
    requires n > 0 && |cfg| == n
    requires forall j :: 0 <= j < |evs| ==> Matches(n, evs[j]) && (evs[j].PollEvent? ==> Shows(evs[j].gates, cfg))
    ensures forall j :: 0 <= j < |WithoutDrops(evs)| ==> Matches(n, WithoutDrops(evs)[j])
    ensures var s, t := Run(n, evs), Run(n, WithoutDrops(evs));
            s.chain == t.chain && s.total == t.total && (s.future == t.future || s.future == Start)
    ensures WaitsUnder(Run(n, evs).future, cfg) && WaitsUnder(Run(n, WithoutDrops(evs)).future, cfg)
  {
    WithoutDropsMatches(n, evs);
    if evs != [] {
      var prev, e := evs[..|evs| - 1], evs[|evs| - 1];
      assert Run(n, evs) == Step(Run(n, prev), e);
      DropsAreInvisible(n, prev, cfg);
      if e.PollEvent? {
        RunSnoc(n, WithoutDrops(prev), e);
        StepsAgree(Run(n, prev), Run(n, WithoutDrops(prev)), e.gates, cfg);
      }
    }
  }

  // ---------------------------------------------------------------------------------------------------------
  // Many sessions under one limiter
  // ---------------------------------------------------------------------------------------------------------

  /** One step of the fleet: session `who` is polled or drops its call. */
  datatype Turn = Turn(who: nat, event: Event)

  /** Every turn names a session of the fleet and fits its depth. */
  predicate Playable(depths: seq<nat>, turns: seq<Turn>) {
    (forall k :: 0 <= k < |depths| ==> depths[k] > 0)
    && forall j :: 0 <= j < |turns| ==> turns[j].who < |depths| && Matches(depths[turns[j].who], turns[j].event)
  }

  /** All sessions after an interleaved run. */
  function RunFleet(depths: seq<nat>, turns: seq<Turn>): (fleet: seq<Session>)
    requires Playable(depths, turns)
    ensures |fleet| == |depths|
    ensures forall k :: 0 <= k < |fleet| ==> Fits(fleet[k].chain, fleet[k].future) && Depth(fleet[k].chain) == depths[k]
  {
    if turns == [] then seq(|depths|, k requires 0 <= k < |depths| => Session(NewChain(depths[k]), Start, 0))
    else
      var fleet, t := RunFleet(depths, turns[..|turns| - 1]), turns[|turns| - 1];
      fleet[t.who := Step(fleet[t.who], t.event)]
  }

  /** The events of session `who`. */
  function Mine(turns: seq<Turn>, who: nat): (evs: seq<Event>)
    ensures forall e :: e in evs ==> exists j :: 0 <= j < |turns| && turns[j] == Turn(who, e)
  {
    if turns == [] then []
    else if turns[|turns| - 1].who != who then Mine(turns[..|turns| - 1], who)
    else Mine(turns[..|turns| - 1], who) + [turns[|turns| - 1].event]
  }

  lemma MineMatches(depths: seq<nat>, turns: seq<Turn>, who: nat)
    requires Playable(depths, turns) && who < |depths|
    ensures forall j :: 0 <= j < |Mine(turns, who)| ==> Matches(depths[who], Mine(turns, who)[j])
  {
    forall j | 0 <= j < |Mine(turns, who)|
      ensures Matches(depths[who], Mine(turns, who)[j])
    {
      assert Mine(turns, who)[j] in Mine(turns, who);
    }
  }

  /** Sessions are independent: each one is where its own events alone would have brought it. */
  lemma {:induction false} FleetIsIndependent(depths: seq<nat>, turns: seq<Turn>, who: nat)
    requires Playable(depths, turns) && who < |depths|
    requires forall j :: 0 <= j < |Mine(turns, who)| ==> Matches(depths[who], Mine(turns, who)[j])
    ensures RunFleet(depths, turns)[who] == Run(depths[who], Mine(turns, who))
  {
    if turns != [] {
      var prev, t := turns[..|turns| - 1], turns[|turns| - 1];
      MineMatches(depths, prev, who);
      assert RunFleet(depths, turns) == RunFleet(depths, prev)[t.who := Step(RunFleet(depths, prev)[t.who], t.event)];
      FleetIsIndependent(depths, prev, who);
      if t.who == who {
        RunSnoc(depths[who], Mine(prev, who), t.event);
      }
    }
  }

  /** Pieces taken from the shared limiter, which is level `at[k]` of session `k`; sessions `k..` only. */
  function PiecesFrom(fleet: seq<Session>, at: seq<nat>, k: nat): nat
    requires |at| == |fleet| && k <= |fleet| && forall i :: 0 <= i < |at| ==> at[i] < Depth(fleet[i].chain)
    decreases |fleet| - k
  {
    if k == |fleet| then 0 else |Bank(fleet[k].chain)[at[k]].pieces| + PiecesFrom(fleet, at, k + 1)
  }

  function TotalFrom(fleet: seq<Session>, k: nat): nat
    requires k <= |fleet|
    decreases |fleet| - k
  {
    if k == |fleet| then 0 else fleet[k].total + TotalFrom(fleet, k + 1)
  }

  /** In every turn session `k` sees weight `w` at level `at[k]`. */
  ghost predicate SharesWeight(depths: seq<nat>, turns: seq<Turn>, at: seq<nat>, w: NonZeroU32)
    requires Playable(depths, turns) && |at| == |depths| && forall k :: 0 <= k < |at| ==> at[k] < depths[k]
  {
    forall j :: 0 <= j < |turns| && turns[j].event.PollEvent? ==>
      Matches(depths[turns[j].who], turns[j].event) && turns[j].event.gates[at[turns[j].who]].weight == w
  }

  /** The share of one session. */
  predicate WithinPieces(s: Session, level: nat, w: nat)
    requires level < Depth(s.chain)
  {
    var p := |Bank(s.chain)[level].pieces|;
    p * w - w <= s.total <= p * w
  }

  lemma {:induction false} OneSessionBounds(depths: seq<nat>, turns: seq<Turn>, at: seq<nat>, w: NonZeroU32, k: nat)
    requires Playable(depths, turns) && |at| == |depths| && forall k :: 0 <= k < |at| ==> at[k] < depths[k]
    requires SharesWeight(depths, turns, at, w) && k < |depths|
    ensures WithinPieces(RunFleet(depths, turns)[k], at[k], w)
  {
    MineMatches(depths, turns, k);
    FleetIsIndependent(depths, turns, k);
    forall j | 0 <= j < |Mine(turns, k)| && Mine(turns, k)[j].PollEvent?
      ensures Mine(turns, k)[j].gates[at[k]].weight == w
    {
      assert Mine(turns, k)[j] in Mine(turns, k);
    }
    ChargeBounds(depths[k], Mine(turns, k), at[k], w);
  }

  /** The shares of the sessions from `k` on add up. */
  lemma {:induction false} SharesAddUp(fleet: seq<Session>, at: seq<nat>, w: nat, k: nat)
    requires |at| == |fleet| && k <= |fleet| && forall i :: 0 <= i < |at| ==> at[i] < Depth(fleet[i].chain)
    requires forall i :: 0 <= i < |at| ==> WithinPieces(fleet[i], at[i], w)
    ensures Times(w, PiecesFrom(fleet, at, k)) - Times(w, |fleet| - k) <= TotalFrom(fleet, k)
         <= Times(w, PiecesFrom(fleet, at, k))
    decreases |fleet| - k
  {
    if k < |fleet| {
      SharesAddUp(fleet, at, w, k + 1);
      assert WithinPieces(fleet[k], at[k], w);
      AddBounds(w, |Bank(fleet[k].chain)[at[k]].pieces|, PiecesFrom(fleet, at, k + 1), |fleet| - (k + 1),
                fleet[k].total, TotalFrom(fleet, k + 1));
    }
  }

  /**
   A limiter of weight `w` shared by `n` sessions, in any interleaving of their polls and drops: all sessions together
   return at most what the pieces allow, and at least that less one piece for each session.
   */
  lemma {:induction false} SharedLimiterBounds(depths: seq<nat>, turns: seq<Turn>, at: seq<nat>, w: NonZeroU32)
    requires Playable(depths, turns) && |at| == |depths| && forall k :: 0 <= k < |at| ==> at[k] < depths[k]
    requires SharesWeight(depths, turns, at, w)
    ensures var fleet := RunFleet(depths, turns);
            w * PiecesFrom(fleet, at, 0) - |fleet| * w <= TotalFrom(fleet, 0) <= w * PiecesFrom(fleet, at, 0)
  {
    var fleet := RunFleet(depths, turns);
    forall k | 0 <= k < |at|
      ensures WithinPieces(fleet[k], at[k], w)
    {
      OneSessionBounds(depths, turns, at, w, k);
    }
    SharesAddUp(fleet, at, w, 0);
    TimesIsProduct(w, PiecesFrom(fleet, at, 0));
    TimesIsProduct(w, |fleet|);
  }

  /** The bytes of all pieces taken from the shared limiter by the sessions `k..`. */
  function PieceBytesFrom(fleet: seq<Session>, at: seq<nat>, k: nat): nat
    requires |at| == |fleet| && k <= |fleet| && forall i :: 0 <= i < |at| ==> at[i] < Depth(fleet[i].chain)
    decreases |fleet| - k
  {
    if k == |fleet| then 0 else Sum(Bank(fleet[k].chain)[at[k]].pieces) + PieceBytesFrom(fleet, at, k + 1)
  }

  /** The bytes of the last pieces that the sessions `k..` took from the shared limiter. */
  function LastBytesFrom(fleet: seq<Session>, at: seq<nat>, k: nat): nat
    requires |at| == |fleet| && k <= |fleet| && forall i :: 0 <= i < |at| ==> at[i] < Depth(fleet[i].chain)
    decreases |fleet| - k
  {
    if k == |fleet| then 0 else Last(Bank(fleet[k].chain)[at[k]].pieces) + LastBytesFrom(fleet, at, k + 1)
  }

  lemma {:induction false} StrandedAddUp(fleet: seq<Session>, at: seq<nat>, k: nat)
    requires |at| == |fleet| && k <= |fleet| && forall i :: 0 <= i < |at| ==> at[i] < Depth(fleet[i].chain)
    requires forall i :: 0 <= i < |at| ==> Balanced(Bank(fleet[i].chain)[at[i]], fleet[i].total, 0)
    ensures PieceBytesFrom(fleet, at, k) - LastBytesFrom(fleet, at, k) <= TotalFrom(fleet, k)
         <= PieceBytesFrom(fleet, at, k)
    decreases |fleet| - k
  {
    if k < |fleet| {
      StrandedAddUp(fleet, at, k + 1);
      assert Balanced(Bank(fleet[k].chain)[at[k]], fleet[k].total, 0);
    }
  }

  /** The same for any weights and any `set_limit`: each session strands at most its last piece. */
  lemma {:induction false} SharedLimiterStrands(depths: seq<nat>, turns: seq<Turn>, at: seq<nat>)
    requires Playable(depths, turns) && |at| == |depths| && forall k :: 0 <= k < |at| ==> at[k] < depths[k]
    ensures var fleet := RunFleet(depths, turns);
            PieceBytesFrom(fleet, at, 0) - LastBytesFrom(fleet, at, 0) <= TotalFrom(fleet, 0)
              <= PieceBytesFrom(fleet, at, 0)
  {
    var fleet := RunFleet(depths, turns);
    forall k | 0 <= k < |at|
      ensures Balanced(Bank(fleet[k].chain)[at[k]], fleet[k].total, 0)
    {
      MineMatches(depths, turns, k);
      FleetIsIndependent(depths, turns, k);
      RunsAreSound(depths[k], Mine(turns, k));
    }
    StrandedAddUp(fleet, at, 0);
  }
}
