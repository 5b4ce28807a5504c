/** Many limited streams under one limiter, polled in any interleaving and under any `set_limit`. */
module LimitSharing {
  import opened Common
  import opened RateChain
  import opened RateRuns
  import opened LimitPolls

  /** One step of the fleet: stream `who` is polled. */
  datatype StreamTurn = StreamTurn(who: nat, poll: IoPoll)

  predicate Playable(depths: seq<nat>, turns: seq<StreamTurn>) {
    (forall k :: 0 <= k < |depths| ==> depths[k] > 0)
    && forall j :: 0 <= j < |turns| ==> turns[j].who < |depths| && |turns[j].poll.gates| == depths[turns[j].who]
  }

  /** All streams after an interleaved run. */
  function RunStreams(depths: seq<nat>, turns: seq<StreamTurn>): (fleet: seq<Meter>)
    requires Playable(depths, turns)
    ensures |fleet| == |depths|
    ensures forall k :: 0 <= k < |fleet| ==>
              Fits(fleet[k].chain, PendingCall(fleet[k].io)) && Depth(fleet[k].chain) == depths[k]
  {
    if turns == [] then seq(|depths|, k requires 0 <= k < |depths| => RunMeter(depths[k], []))
    else
      var fleet, t := RunStreams(depths, turns[..|turns| - 1]), turns[|turns| - 1];
      fleet[t.who := PollMeter(fleet[t.who], t.poll.gates, t.poll.room, t.poll.reply).0]
  }

  /** The polls of stream `who`. */
  function Mine(depths: seq<nat>, turns: seq<StreamTurn>, who: nat): (evs: seq<IoPoll>)
    requires Playable(depths, turns) && who < |depths|
    ensures forall j :: 0 <= j < |evs| ==> |evs[j].gates| == depths[who]
  {
    if turns == [] then []
    else
      var prev, t := Mine(depths, turns[..|turns| - 1], who), turns[|turns| - 1];
      if t.who == who then prev + [t.poll] else prev
  }

  lemma RunMeterSnoc(n: nat, evs: seq<IoPoll>, e: IoPoll)
    requires n > 0 && |e.gates| == n && forall j :: 0 <= j < |evs| ==> |evs[j].gates| == n
    ensures RunMeter(n, evs + [e]) == PollMeter(RunMeter(n, evs), e.gates, e.room, e.reply).0
  {
    assert (evs + [e])[..|evs|] == evs;
  }

  /** Streams are independent: each one is where its own polls alone would have brought it. */
  lemma {:induction false} StreamsAreIndependent(depths: seq<nat>, turns: seq<StreamTurn>, who: nat)
    requires Playable(depths, turns) && who < |depths|
    ensures RunStreams(depths, turns)[who] == RunMeter(depths[who], Mine(depths, turns, who))
  {
    if turns != [] {
      var prev, t := turns[..|turns| - 1], turns[|turns| - 1];
      StreamsAreIndependent(depths, prev, who);
      if t.who == who {
        RunMeterSnoc(depths[who], Mine(depths, prev, who), t.poll);
      }
    }
  }

  /** The pieces a stream took from the shared limiter, which is at this level of its chain. */
  function Pieces(m: Meter, level: nat): seq<nat>
    requires level < Depth(m.chain)
  {
    Bank(m.chain)[level].pieces
  }

  /** The bytes of all pieces, of all last pieces, and moved or forfeited, of the streams `k..`. */
  function PieceBytes(fleet: seq<Meter>, at: seq<nat>, k: nat): nat
    requires |at| == |fleet| && k <= |fleet| && forall i :: 0 <= i < |at| ==> at[i] < Depth(fleet[i].chain)
    decreases |fleet| - k
  {
    if k == |fleet| then 0 else Sum(Pieces(fleet[k], at[k])) + PieceBytes(fleet, at, k + 1)
  }

  function LastBytes(fleet: seq<Meter>, at: seq<nat>, k: nat): nat
    requires |at| == |fleet| && k <= |fleet| && forall i :: 0 <= i < |at| ==> at[i] < Depth(fleet[i].chain)
    decreases |fleet| - k
  {
    if k == |fleet| then 0 else Last(Pieces(fleet[k], at[k])) + LastBytes(fleet, at, k + 1)
  }

  function SpentBytes(fleet: seq<Meter>, k: nat): nat
    requires k <= |fleet|
    decreases |fleet| - k
  {
    if k == |fleet| then 0 else fleet[k].moved + fleet[k].forfeited + SpentBytes(fleet, k + 1)
  }

  /** The bytes of one stream lie between its pieces less the last one and its pieces. */
  predicate Throttled(m: Meter, level: nat)
    requires level < Depth(m.chain)
  {
    Sum(Pieces(m, level)) - Last(Pieces(m, level)) <= m.moved + m.forfeited <= Sum(Pieces(m, level))
  }

  lemma {:induction false} ThrottledAddUp(fleet: seq<Meter>, at: seq<nat>, k: nat)
    requires |at| == |fleet| && k <= |fleet| && forall i :: 0 <= i < |at| ==> at[i] < Depth(fleet[i].chain)
    requires forall i :: 0 <= i < |at| ==> Throttled(fleet[i], at[i])
    ensures PieceBytes(fleet, at, k) - LastBytes(fleet, at, k) <= SpentBytes(fleet, k) <= PieceBytes(fleet, at, k)
    decreases |fleet| - k
  {
    if k < |fleet| {
      ThrottledAddUp(fleet, at, k + 1);
      assert Throttled(fleet[k], at[k]);
    }
  }

  /**
   The shared throttle, end to end: the bytes that all streams together have moved or forfeited are at most the pieces
   they took from the shared limiter, and at least those less one last piece for each stream.
   */
  lemma {:induction false} SharedThrottle(depths: seq<nat>, turns: seq<StreamTurn>, at: seq<nat>)
    requires Playable(depths, turns) && |at| == |depths| && forall k :: 0 <= k < |at| ==> at[k] < depths[k]
    ensures var fleet := RunStreams(depths, turns);
            PieceBytes(fleet, at, 0) - LastBytes(fleet, at, 0) <= SpentBytes(fleet, 0) <= PieceBytes(fleet, at, 0)
  {
    var fleet := RunStreams(depths, turns);
    forall k | 0 <= k < |at|
      ensures Throttled(fleet[k], at[k])
    {
      StreamsAreIndependent(depths, turns, k);
      ThrottleUnderSetLimit(depths[k], Mine(depths, turns, k), at[k]);
    }
    ThrottledAddUp(fleet, at, 0);
  }
}
