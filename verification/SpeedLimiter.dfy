/**
 `SpeedLimiter` and `SpeedLimitSession`: a chain of limiters and, for each user, a chain of sessions that update their
 remainders in place.  The token bucket of a limiter is an oracle: each poll is told which buckets are ready.
 */
module SpeedLimiters {
  import opened Common
  import opened RateChain
  import opened RateRuns

  const UNLIMITED_RATE: NonZeroU32 := 0xFFFF_FFFF
  const DEFAULT_WEIGHT: NonZeroU32 := 64 * 1024

  /** The quota of a token bucket. */
  datatype Bucket = Bucket(rate: NonZeroU32, burst: NonZeroU32)

  function OrElse(o: Option<NonZeroU32>, default: NonZeroU32): (v: NonZeroU32)
    ensures o == None ==> v == default
    ensures o.Some? ==> o == Some(v)
  {
    if o.Some? then o.value else default
  }

  class SpeedLimiter {
    const upper: SpeedLimiter?
    var weight: NonZeroU32
    /** None if the rate is not limited. */
    var bucket: Option<Bucket>
    ghost const depth: nat

    /** Limiters are created after their upper limiter, so chains of limiters end. */
    ghost predicate Ranked()
      decreases depth
    {
      if upper == null then depth == 1 else depth == upper.depth + 1 && upper.Ranked()
    }

    constructor (upper: SpeedLimiter?, rate: Option<NonZeroU32>, weight: Option<NonZeroU32>)
      requires upper != null ==> upper.Ranked()
      ensures this.upper == upper && Ranked()
      ensures this.weight == OrElse(weight, 64 * 1024)
      ensures rate == None || rate == Some(0xFFFF_FFFF) ==> bucket == None
      ensures rate.Some? && rate.value < 0xFFFF_FFFF ==> bucket == Some(Bucket(rate.value, rate.value))
    {
      var r := OrElse(rate, UNLIMITED_RATE);
      this.upper := upper;
      this.weight := OrElse(weight, DEFAULT_WEIGHT);
      this.bucket := if r == UNLIMITED_RATE then None else Some(Bucket(r, r));
      this.depth := if upper == null then 1 else upper.depth + 1;
    }

    constructor WithBurst(upper: SpeedLimiter?, rate: Option<NonZeroU32>, weight: Option<NonZeroU32>,
                          burst: Option<NonZeroU32>)
      requires upper != null ==> upper.Ranked()
      ensures this.upper == upper && Ranked()
      ensures this.weight == OrElse(weight, 64 * 1024)
      ensures rate == None || rate == Some(0xFFFF_FFFF) ==> bucket == None
      ensures rate.Some? && rate.value < 0xFFFF_FFFF ==>
                bucket == Some(Bucket(rate.value, OrElse(burst, rate.value)))
    {
      var r := OrElse(rate, UNLIMITED_RATE);
      this.upper := upper;
      this.weight := OrElse(weight, DEFAULT_WEIGHT);
      this.bucket := if r == UNLIMITED_RATE then None else Some(Bucket(r, OrElse(burst, r)));
      this.depth := if upper == null then 1 else upper.depth + 1;
    }

    /** Replaces weight and token bucket, also one made with a burst; sessions keep what they already took. */
    method SetLimit(rate: Option<NonZeroU32>, weight: Option<NonZeroU32>)
      modifies this
      ensures this.weight == OrElse(weight, 64 * 1024)
      ensures rate == None || rate == Some(0xFFFF_FFFF) ==> bucket == None
      ensures rate.Some? && rate.value < 0xFFFF_FFFF ==> bucket == Some(Bucket(rate.value, rate.value))
    {
      var r := OrElse(rate, UNLIMITED_RATE);
      this.weight := OrElse(weight, DEFAULT_WEIGHT);
      this.bucket := if r == UNLIMITED_RATE then None else Some(Bucket(r, r));
    }

    method NewLimitSession() returns (s: SpeedLimitSession)
      requires Ranked()
      ensures s.Linked() && fresh(s.Repr) && s.limiter == this && s.depth == depth
      ensures s.View() == NewChain(depth)
      decreases depth
    {
      var upperSession: SpeedLimitSession? := null;
      if upper != null {
        upperSession := upper.NewLimitSession();
      }
      s := new SpeedLimitSession(upperSession, this);
    }

    function Show(ready: bool): (g: Gate)
      reads this
      ensures g.weight == weight && (g.limited <==> bucket.Some?) && (g.ready <==> ready)
    {
      Gate(weight, bucket.Some?, ready)
    }

    /** One poll of the wait for a piece: `f` tells whether the wait has begun, and with which piece size. */
    method PollUntilReady(f: Future, ready: bool) returns (p: Polled)
      ensures p == if Opens(f, Show(ready)) then Ready(Piece(f, Show(ready)))
                   else Pending(OnLimiter(Piece(f, Show(ready))))
      ensures f == Start ==> p == if bucket == None || ready then Ready(weight) else Pending(OnLimiter(weight))
      ensures f.OnLimiter? ==> p == if ready then Ready(f.piece) else Pending(f)
    {
      var piece := if f.OnLimiter? then f.piece else weight;
      if !f.OnLimiter? && bucket.None? {
        return Ready(piece);
      }
      p := if ready then Ready(piece) else Pending(OnLimiter(piece));
    }
  }

  class SpeedLimitSession {
    const upperSession: SpeedLimitSession?
    const limiter: SpeedLimiter
    var upperRemainder: nat
    var localRemainder: nat

    ghost var pieces: seq<nat>
    ghost const Repr: set<SpeedLimitSession>
    ghost const limiters: set<SpeedLimiter>
    ghost const depth: nat

    ghost predicate Linked()
      decreases depth
    {
      if upperSession == null then depth == 1 && Repr == {this} && limiters == {limiter}
      else
        && limiters == {limiter} + upperSession.limiters
        && depth == upperSession.depth + 1 && upperSession.Linked() && limiter.upper == upperSession.limiter
        && this !in upperSession.Repr && Repr == {this} + upperSession.Repr
    }

    ghost function View(): (c: Chain)
      requires Linked()
      reads Repr
      ensures Depth(c) == depth
      decreases depth
    {
      if upperSession == null then Root(pieces)
      else Child(upperSession.View(), upperRemainder, localRemainder, pieces)
    }

    /** What the limiters of this session show, root first, when `ready` says which token buckets are ready. */
    ghost function Gates(ready: seq<bool>): (gates: seq<Gate>)
      requires Linked() && |ready| == depth
      reads limiters
      ensures |gates| == depth
      decreases depth
    {
      (if upperSession == null then [] else upperSession.Gates(ready[..depth - 1])) + [limiter.Show(ready[depth - 1])]
    }

    /** The limiter of level `i`, root first. */
    ghost function Level(i: nat): (l: SpeedLimiter)
      requires Linked() && i < depth
      decreases depth
    {
      if i == depth - 1 then limiter else upperSession.Level(i)
    }

    /** Each limiter of the chain shows its own limits and its own token bucket; the one of this session is the last. */
    lemma {:induction false} GatesAreShown(ready: seq<bool>, i: nat)
      requires Linked() && |ready| == depth && i < depth
      ensures Level(depth - 1) == limiter && (i > 0 ==> Level(i).upper == Level(i - 1))
      ensures var g := Gates(ready)[i];
              g.weight == Level(i).weight && (g.limited <==> Level(i).bucket.Some?) && (g.ready <==> ready[i])
      decreases depth
    {
      if i < depth - 1 {
        upperSession.GatesAreShown(ready[..depth - 1], i);
      }
    }

    constructor (upperSession: SpeedLimitSession?, limiter: SpeedLimiter)
      requires upperSession != null ==> upperSession.Linked() && limiter.upper == upperSession.limiter
      ensures Linked() && this.upperSession == upperSession && this.limiter == limiter
      ensures upperSession == null ==> Repr == {this} && View() == Root([])
      ensures upperSession != null ==>
                Repr == {this} + upperSession.Repr && View() == Child(upperSession.View(), 0, 0, [])
    {
      this.upperSession := upperSession;
      this.limiter := limiter;
      this.upperRemainder := 0;
      this.localRemainder := 0;
      this.pieces := [];
      this.Repr := {this} + if upperSession == null then {} else upperSession.Repr;
      this.limiters := {limiter} + if upperSession == null then {} else upperSession.limiters;
      this.depth := if upperSession == null then 1 else upperSession.depth + 1;
    }

    /** One poll of the future of `until_ready`; `f` is where the pending call stands. */
    method PollUntilReady(f: Future, ready: seq<bool>) returns (p: Polled)
      requires Linked() && |ready| == depth && Fits(View(), f)
      modifies Repr
      ensures (View(), p) == Poll(old(View()), f, old(Gates(ready)))
      decreases depth
    {
      ghost var c, gates := View(), Gates(ready);
      if upperSession == null {
        p := limiter.PollUntilReady(f, ready[0]);
        if p.Ready? {
          pieces := pieces + [p.granted];
        }
      } else {
        p := PollUpper(f, ready);
        PollThroughUpper(c, f, gates, upperSession.View(), p);
        if p.Pending? {
          p := Pending(OnUpper(p.future));
        } else {
          upperRemainder := p.granted;
          p := PollAndSplit(f, ready[|ready| - 1]);
        }
      }
    }

    /** Polls the upper session if nothing is left of what it gave. */
    method PollUpper(f: Future, ready: seq<bool>) returns (p: Polled)
      requires Linked() && upperSession != null && |ready| == depth && Fits(View(), f)
      modifies upperSession.Repr
      ensures (upperSession.View(), p)
           == if upperRemainder == 0
              then Poll(old(upperSession.View()), UpperFuture(f), old(Gates(ready))[..depth - 1])
              else (old(upperSession.View()), Ready(upperRemainder))
      decreases depth, 0
    {
      assert Gates(ready)[..depth - 1] == upperSession.Gates(ready[..depth - 1]);
      if upperRemainder == 0 {
        p := upperSession.PollUntilReady(UpperFuture(f), ready[..|ready| - 1]);
      } else {
        p := Ready(upperRemainder);
      }
    }

    /** The rest of a call once the upper remainder is positive: fill the local remainder, hand out the smaller one. */
    method PollAndSplit(f: Future, ready: bool) returns (p: Polled)
      requires Linked() && upperSession != null
      modifies this
      ensures (View(), p) == PollLocal(old(upperSession.View()), old(upperRemainder), old(localRemainder), old(pieces),
                                       f, limiter.Show(ready))
    {
      if localRemainder == 0 {
        p := limiter.PollUntilReady(f, ready);
        if p.Pending? {
          return;
        }
        localRemainder := p.granted;
        pieces := pieces + [p.granted];
      }
      if upperRemainder > localRemainder {
        upperRemainder := upperRemainder - localRemainder;
        p := Ready(localRemainder);
        localRemainder := 0;
      } else {
        localRemainder := localRemainder - upperRemainder;
        p := Ready(upperRemainder);
        upperRemainder := 0;
      }
    }
  }
}
