/**
 The value-level meaning of a chain of rate-limit sessions.

 `Poll` is one poll of the future made by `SpeedLimitSession::until_ready`, on a chain of any depth.
 `Bank` forgets the nesting: it is one independent counter per limiter, holding the part of that limiter's
 last piece that has not reached the bottom of the chain yet.  The main theorem says that the nested
 remainders are only a clever representation of that flat bank.
 */
module RateChain {
  import opened Common

  // ---------------------------------------------------------------------------------------------------------
  // Sessions, futures and one poll
  // ---------------------------------------------------------------------------------------------------------

  /** One session per limiter, root first. `pieces` is history: every piece this session took from its limiter. */
  datatype Chain =
    | Root(pieces: seq<nat>)
    | Child(upper: Chain, upperRemainder: nat, localRemainder: nat, pieces: seq<nat>)

  /** What a limiter shows during one poll: its weight, whether it limits at all, whether its token bucket is ready. */
  datatype Gate = Gate(weight: NonZeroU32, limited: bool, ready: bool)

  /** Where a suspended call stands: not started, waiting for the upper session, or waiting for the own limiter. */
  datatype Future = Start | OnUpper(upper: Future) | OnLimiter(piece: NonZeroU32)

  datatype Polled = Pending(future: Future) | Ready(granted: nat)

  function Depth(c: Chain): (n: nat)
    ensures n > 0
  {
    match c
    case Root(_) => 1
    case Child(upper, _, _, _) => Depth(upper) + 1
  }

  /** The future belongs to a call that was suspended on this chain. */
  ghost predicate Fits(c: Chain, f: Future) {
    match f
    case Start => true
    case OnUpper(g) => c.Child? && c.upperRemainder == 0 && g != Start && Fits(c.upper, g)
    case OnLimiter(_) => c.Child? ==> c.upperRemainder > 0 && c.localRemainder == 0
  }

  /** The piece size is read when the wait on the limiter begins; a later `set_limit` does not change it. */
  function Piece(f: Future, g: Gate): NonZeroU32 {
    if f.OnLimiter? then f.piece else g.weight
  }

  /** A wait begun on a token bucket stays on that bucket; otherwise an unlimited limiter never waits. */
  predicate Opens(f: Future, g: Gate) {
    g.ready || (!f.OnLimiter? && !g.limited)
  }

  function UpperFuture(f: Future): Future {
    if f.OnUpper? then f.upper else Start
  }

  /** Hands out the smaller of the two remainders. */
  function Split(upper: Chain, u: nat, l: nat, pieces: seq<nat>): (r: (Chain, Polled)) {
    if u > l then (Child(upper, u - l, 0, pieces), Ready(l)) else (Child(upper, 0, l - u, pieces), Ready(u))
  }

  /** The part of a call after the upper remainder is known to be positive. */
  function PollLocal(upper: Chain, u: nat, l: nat, pieces: seq<nat>, f: Future, g: Gate): (r: (Chain, Polled)) {
    if l != 0 then Split(upper, u, l, pieces)
    else if Opens(f, g) then Split(upper, u, Piece(f, g), pieces + [Piece(f, g)])
    else (Child(upper, u, 0, pieces), Pending(OnLimiter(Piece(f, g))))
  }

  /** One poll of `until_ready`; `gates` shows the limiters of the chain, root first. */
  function Poll(c: Chain, f: Future, gates: seq<Gate>): (r: (Chain, Polled))
    requires |gates| == Depth(c) && Fits(c, f)
    ensures Depth(r.0) == Depth(c)
    ensures r.1.Pending? ==> r.1.future != Start && Fits(r.0, r.1.future)
    ensures r.1.Ready? ==> r.1.granted > 0
  {
    match c
    case Root(pieces) =>
      if Opens(f, gates[0]) then (Root(pieces + [Piece(f, gates[0])]), Ready(Piece(f, gates[0])))
      else (c, Pending(OnLimiter(Piece(f, gates[0]))))
    case Child(upper, u, l, pieces) =>
      var (upper', p) := if u == 0 then Poll(upper, UpperFuture(f), gates[..|gates| - 1]) else (upper, Ready(u));
      if p.Pending? then (Child(upper', 0, l, pieces), Pending(OnUpper(p.future)))
      else PollLocal(upper', p.granted, l, pieces, f, gates[|gates| - 1])
  }

  /** The poll of a session is that of its upper session, if needed, and then of its own limiter. */
  lemma PollThroughUpper(c: Chain, f: Future, gates: seq<Gate>, upper': Chain, p: Polled)
    requires |gates| == Depth(c) && Fits(c, f) && c.Child?
    requires (upper', p) == if c.upperRemainder == 0 then Poll(c.upper, UpperFuture(f), gates[..|gates| - 1])
                            else (c.upper, Ready(c.upperRemainder))
    ensures Poll(c, f, gates)
         == if p.Pending? then (Child(upper', 0, c.localRemainder, c.pieces), Pending(OnUpper(p.future)))
            else PollLocal(upper', p.granted, c.localRemainder, c.pieces, f, gates[|gates| - 1])
  {
  }

  // ---------------------------------------------------------------------------------------------------------
  // The flat bank
  // ---------------------------------------------------------------------------------------------------------

  /** `left` is what this limiter has granted and the bottom of the chain has not returned yet. */
  datatype Counter = Counter(left: nat, pieces: seq<nat>)

  function Raise(b: seq<Counter>, u: nat): (r: seq<Counter>)
    ensures |r| == |b| && forall i :: 0 <= i < |r| ==> r[i] == Counter(b[i].left + u, b[i].pieces)
  {
    seq(|b|, i requires 0 <= i < |b| => Counter(b[i].left + u, b[i].pieces))
  }

  function Bank(c: Chain): (b: seq<Counter>)
    ensures |b| == Depth(c)
  {
    match c
    case Root(pieces) => [Counter(0, pieces)]
    case Child(upper, u, l, pieces) => Raise(Bank(upper), u) + [Counter(l, pieces)]
  }

  /** An empty counter takes a piece; a counter with something left takes nothing. */
  function Charge(k: Counter, w: nat): Counter {
    if k.left == 0 then Counter(w, k.pieces + [w]) else k
  }

  /** The first `n` counters are charged. */
  function Refill(b: seq<Counter>, ws: seq<nat>, n: nat): (r: seq<Counter>)
    requires |b| == |ws|
    ensures |r| == |b| && forall i :: 0 <= i < |r| ==> r[i] == if i < n then Charge(b[i], ws[i]) else b[i]
  {
    seq(|b|, i requires 0 <= i < |b| => if i < n then Charge(b[i], ws[i]) else b[i])
  }

  /** Every counter pays `x`. */
  function Spend(b: seq<Counter>, x: nat): (r: seq<Counter>)
    requires forall i :: 0 <= i < |b| ==> x <= b[i].left
    ensures |r| == |b| && forall i :: 0 <= i < |r| ==> r[i] == Counter(b[i].left - x, b[i].pieces)
  {
    seq(|b|, i requires 0 <= i < |b| => Counter(b[i].left - x, b[i].pieces))
  }

  ghost predicate IsLeast(x: nat, b: seq<Counter>) {
    (forall i :: 0 <= i < |b| ==> x <= b[i].left) && exists i :: 0 <= i < |b| && b[i].left == x
  }

  /** The piece each limiter would hand out in this poll, root first. */
  function Offer(f: Future, gates: seq<Gate>): (ws: seq<nat>)
    requires |gates| > 0
    ensures |ws| == |gates| && forall i :: 0 <= i < |ws| ==> ws[i] > 0
    decreases |gates|
  {
    (if |gates| == 1 then [] else Offer(UpperFuture(f), gates[..|gates| - 1])) + [Piece(f, gates[|gates| - 1])]
  }

  /** The level whose limiter a suspended call waits for. */
  function Awaited(f: Future, depth: nat): (k: nat)
    requires depth > 0
    ensures k < depth
  {
    if f.OnUpper? && depth > 1 then Awaited(f.upper, depth - 1) else depth - 1
  }

  function AwaitedBy(p: Polled, depth: nat): (k: nat)
    requires depth > 0
    ensures k < depth
  {
    if p.Pending? then Awaited(p.future, depth) else depth - 1
  }

  /** Between polls no level holds both an upper and a local remainder. */
  ghost predicate Settled(c: Chain) {
    c.Child? ==> Settled(c.upper) && (c.upperRemainder == 0 || c.localRemainder == 0)
  }

  lemma {:induction false} SettledHasEmptyCounter(c: Chain)
    requires Settled(c)
    ensures exists i :: 0 <= i < Depth(c) && Bank(c)[i].left == 0
  {
    match c
    case Root(_) => assert Bank(c)[0].left == 0;
    case Child(upper, u, l, _) =>
      if l == 0 {
        assert Bank(c)[Depth(c) - 1].left == 0;
      } else {
        SettledHasEmptyCounter(upper);
        var i :| 0 <= i < Depth(upper) && Bank(upper)[i].left == 0;
        assert Bank(c)[i].left == 0;
      }
  }

  /** Raising all counters by `u` and then paying the smaller of `u` and `l`. */
  lemma RaiseThenSpend(b: seq<Counter>, u: nat, l: nat, pieces: seq<nat>)
    requires exists i :: 0 <= i < |b| && b[i].left == 0
    ensures var x := Min(u, l);
            var full := Raise(b, u) + [Counter(l, pieces)];
            IsLeast(x, full) && Spend(full, x) == Raise(b, u - x) + [Counter(l - x, pieces)]
  {
    var full := Raise(b, u) + [Counter(l, pieces)];
    var i :| 0 <= i < |b| && b[i].left == 0;
    assert full[i].left == u && full[|b|].left == l;
  }

  ghost predicate CompletesBank(b: seq<Counter>, ws: seq<nat>, c': Chain, x: nat)
    requires |b| == |ws|
  {
    IsLeast(x, Refill(b, ws, |b|)) && Bank(c') == Spend(Refill(b, ws, |b|), x)
  }

  ghost predicate SuspendsBank(b: seq<Counter>, ws: seq<nat>, c': Chain, k: nat)
    requires |b| == |ws|
  {
    k < |b| && b[k].left == 0 && Bank(c') == Refill(b, ws, k)
  }

  ghost predicate MatchesBank(b: seq<Counter>, ws: seq<nat>, k: nat, c': Chain, p: Polled)
    requires |b| == |ws|
  {
    match p
    case Ready(x) => CompletesBank(b, ws, c', x)
    case Pending(_) => SuspendsBank(b, ws, c', k)
  }

  lemma {:induction false} SplitRefinesBank(b: seq<Counter>, ws: seq<nat>, upper: Chain, u: nat, l: nat,
                                            pieces: seq<nat>)
    requires |b| == |ws| && Settled(upper) && u > 0 && l > 0
    requires Refill(b, ws, |b|) == Raise(Bank(upper), u) + [Counter(l, pieces)]
    ensures var (c', p) := Split(upper, u, l, pieces);
            Settled(c') && p.Ready? && CompletesBank(b, ws, c', p.granted)
  {
    SettledHasEmptyCounter(upper);
    RaiseThenSpend(Bank(upper), u, l, pieces);
  }

  /** The step after the upper remainder is in place: all counters but the last are charged already. */
  lemma LocalRefinesBank(b: seq<Counter>, ws: seq<nat>, upper: Chain, u: nat, l: nat, pieces: seq<nat>, f: Future,
                         g: Gate)
    requires |b| == |ws| == Depth(upper) + 1 && ws[|ws| - 1] == Piece(f, g)
    requires Settled(upper) && u > 0 && b[|b| - 1] == Counter(l, pieces)
    requires Refill(b, ws, |b| - 1) == Raise(Bank(upper), u) + [Counter(l, pieces)]
    ensures var (c', p) := PollLocal(upper, u, l, pieces, f, g);
            Settled(c') && MatchesBank(b, ws, |b| - 1, c', p)
  {
    if l == 0 && !Opens(f, g) {
    } else {
      var k := Charge(b[|b| - 1], ws[|b| - 1]);
      assert Refill(b, ws, |b|) == Raise(Bank(upper), u) + [k];
      SplitRefinesBank(b, ws, upper, u, k.left, k.pieces);
    }
  }

  lemma RaiseByNothing(b: seq<Counter>)
    ensures Raise(b, 0) == b
  {
  }

  lemma RaiseUndoesSpend(b: seq<Counter>, x: nat)
    requires forall i :: 0 <= i < |b| ==> x <= b[i].left
    ensures Raise(Spend(b, x), x) == b
  {
  }

  /** Refilling the first `n` counters leaves the last one alone. */
  lemma RefillButLast(b: seq<Counter>, last: Counter, ws: seq<nat>, n: nat)
    requires |ws| == |b| + 1 && n <= |b|
    ensures Refill(b + [last], ws, n) == Refill(b, ws[..|b|], n) + [last]
  {
  }

  lemma BankAboveIdle(c: Chain)
    requires c.Child? && c.upperRemainder == 0
    ensures Bank(c) == Bank(c.upper) + [Counter(c.localRemainder, c.pieces)]
  {
    RaiseByNothing(Bank(c.upper));
  }

  lemma UpperSuspendRefinesBank(c: Chain, ws: seq<nat>, upper': Chain, k: nat)
    requires c.Child? && c.upperRemainder == 0 && |ws| == Depth(c)
    requires SuspendsBank(Bank(c.upper), ws[..|ws| - 1], upper', k)
    ensures SuspendsBank(Bank(c), ws, Child(upper', 0, c.localRemainder, c.pieces), k)
  {
    BankAboveIdle(c);
    BankAboveIdle(Child(upper', 0, c.localRemainder, c.pieces));
    RefillButLast(Bank(c.upper), Counter(c.localRemainder, c.pieces), ws, k);
  }

  lemma UpperCompleteRefinesBank(c: Chain, ws: seq<nat>, upper': Chain, u': nat)
    requires c.Child? && c.upperRemainder == 0 && |ws| == Depth(c)
    requires CompletesBank(Bank(c.upper), ws[..|ws| - 1], upper', u')
    ensures Refill(Bank(c), ws, |ws| - 1) == Raise(Bank(upper'), u') + [Counter(c.localRemainder, c.pieces)]
  {
    BankAboveIdle(c);
    RefillButLast(Bank(c.upper), Counter(c.localRemainder, c.pieces), ws, |ws| - 1);
    RaiseUndoesSpend(Refill(Bank(c.upper), ws[..|ws| - 1], |ws| - 1), u');
  }

  lemma RootRefinesBank(c: Chain, f: Future, gates: seq<Gate>)
    requires c.Root? && |gates| == 1 && Fits(c, f)
    ensures MatchesBank(Bank(c), Offer(f, gates), 0, Poll(c, f, gates).0, Poll(c, f, gates).1)
  {
    var full := Refill(Bank(c), Offer(f, gates), 1);
    assert full[0].left == Piece(f, gates[0]);
  }

  lemma UpperIdleRefinesBank(c: Chain, ws: seq<nat>)
    requires c.Child? && c.upperRemainder > 0 && |ws| == Depth(c)
    ensures Refill(Bank(c), ws, |ws| - 1) == Bank(c)
    ensures Bank(c) == Raise(Bank(c.upper), c.upperRemainder) + [Counter(c.localRemainder, c.pieces)]
  {
  }

  ghost predicate PollMatchesBank(c: Chain, f: Future, gates: seq<Gate>)
    requires |gates| == Depth(c) && Fits(c, f)
  {
    var (c', p) := Poll(c, f, gates);
    Settled(c') && MatchesBank(Bank(c), Offer(f, gates), AwaitedBy(p, Depth(c)), c', p)
  }

  lemma OfferButLast(f: Future, gates: seq<Gate>)
    requires |gates| > 1
    ensures Offer(f, gates)[..|gates| - 1] == Offer(UpperFuture(f), gates[..|gates| - 1])
    ensures Offer(f, gates)[|gates| - 1] == Piece(f, gates[|gates| - 1])
  {
  }

  /** The cases of `PollRefinesBank` in which the upper session is polled. */
  lemma {:induction false} UpperPendingCase(c: Chain, f: Future, gates: seq<Gate>, upper': Chain, f': Future)
    requires |gates| == Depth(c) && Fits(c, f) && c.Child? && c.upperRemainder == 0 && Settled(upper')
    requires Poll(c.upper, UpperFuture(f), gates[..|gates| - 1]) == (upper', Pending(f'))
    requires SuspendsBank(Bank(c.upper), Offer(UpperFuture(f), gates[..|gates| - 1]), upper', Awaited(f', |gates| - 1))
    ensures PollMatchesBank(c, f, gates)
  {
    OfferButLast(f, gates);
    PollThroughUpper(c, f, gates, upper', Pending(f'));
    UpperSuspendRefinesBank(c, Offer(f, gates), upper', Awaited(f', |gates| - 1));
  }

  lemma {:induction false} LocalAfterUpper(c: Chain, ws: seq<nat>, upper': Chain, u': nat, f: Future, g: Gate)
    requires c.Child? && c.upperRemainder == 0 && |ws| == Depth(c) && ws[|ws| - 1] == Piece(f, g)
    requires Settled(upper') && u' > 0 && CompletesBank(Bank(c.upper), ws[..|ws| - 1], upper', u')
    ensures var (c', p) := PollLocal(upper', u', c.localRemainder, c.pieces, f, g);
            Settled(c') && MatchesBank(Bank(c), ws, Depth(c.upper), c', p)
  {
    UpperCompleteRefinesBank(c, ws, upper', u');
    LocalRefinesBank(Bank(c), ws, upper', u', c.localRemainder, c.pieces, f, g);
  }

  lemma LocalAwaitsOwnLimiter(upper: Chain, u: nat, l: nat, pieces: seq<nat>, f: Future, g: Gate, depth: nat)
    requires depth > 1
    ensures AwaitedBy(PollLocal(upper, u, l, pieces, f, g).1, depth) == depth - 1
  {
  }

  lemma {:induction false} UpperReadyCase(c: Chain, f: Future, gates: seq<Gate>, upper': Chain, u': nat)
    requires |gates| == Depth(c) && Fits(c, f) && c.Child? && c.upperRemainder == 0 && Settled(upper') && u' > 0
    requires Poll(c.upper, UpperFuture(f), gates[..|gates| - 1]) == (upper', Ready(u'))
    requires CompletesBank(Bank(c.upper), Offer(UpperFuture(f), gates[..|gates| - 1]), upper', u')
    ensures PollMatchesBank(c, f, gates)
  {
    var ws, g := Offer(f, gates), gates[|gates| - 1];
    var (c', p) := PollLocal(upper', u', c.localRemainder, c.pieces, f, g);
    OfferButLast(f, gates);
    LocalAfterUpper(c, ws, upper', u', f, g);
    PollThroughUpper(c, f, gates, upper', Ready(u'));
    LocalAwaitsOwnLimiter(upper', u', c.localRemainder, c.pieces, f, g, Depth(c));
    assert Poll(c, f, gates) == (c', p) && MatchesBank(Bank(c), ws, AwaitedBy(p, Depth(c)), c', p);
  }

  /**
   The nested sessions refine the flat bank: a completed call charges every empty counter and returns the least
   counter, a suspended call has charged exactly the empty counters above the limiter it waits for.
   */
  lemma {:induction false} PollRefinesBank(c: Chain, f: Future, gates: seq<Gate>)
    requires |gates| == Depth(c) && Fits(c, f) && Settled(c)
    ensures PollMatchesBank(c, f, gates)
  {
    if c.Root? {
      RootRefinesBank(c, f, gates);
    } else if c.upperRemainder > 0 {
      UpperIdleRefinesBank(c, Offer(f, gates));
      LocalRefinesBank(Bank(c), Offer(f, gates), c.upper, c.upperRemainder, c.localRemainder, c.pieces, f,
                       gates[|gates| - 1]);
    } else {
      PollRefinesBank(c.upper, UpperFuture(f), gates[..|gates| - 1]);
      var (upper', p) := Poll(c.upper, UpperFuture(f), gates[..|gates| - 1]);
      if p.Pending? {
        UpperPendingCase(c, f, gates, upper', p.future);
      } else {
        UpperReadyCase(c, f, gates, upper', p.granted);
      }
    }
  }

  // ---------------------------------------------------------------------------------------------------------
  // Waiting
  // ---------------------------------------------------------------------------------------------------------

  /** The size of the piece that a suspended call waits for. */
  function PieceOf(f: Future): nat {
    match f
    case Start => 0
    case OnUpper(g) => PieceOf(g)
    case OnLimiter(piece) => piece
  }

  /** The pending call waits at the limiter of level `i`. */
  predicate WaitsAt(f: Future, depth: nat, i: nat)
    requires i < depth
  {
    f != Start && i == Awaited(f, depth)
  }

  /**
   A limiter offers the weight it shows, unless the pending call has begun to wait for it: then it offers the piece that
   was its weight at that time.
   */
  lemma {:induction false} OfferIsShownOrCaptured(c: Chain, f: Future, gates: seq<Gate>, i: nat)
    requires |gates| == Depth(c) && Fits(c, f) && i < |gates|
    ensures Offer(f, gates)[i] == if WaitsAt(f, |gates|, i) then PieceOf(f) else gates[i].weight
  {
    if i < |gates| - 1 {
      OfferIsShownOrCaptured(c.upper, UpperFuture(f), gates[..|gates| - 1], i);
    }
  }

  /** A call that stays pending waits for a piece of the size offered in this poll. */
  lemma {:induction false} SuspendedWaitsForOffer(c: Chain, f: Future, gates: seq<Gate>)
    requires |gates| == Depth(c) && Fits(c, f) && Poll(c, f, gates).1.Pending?
    ensures var f' := Poll(c, f, gates).1.future;
            f' != Start && PieceOf(f') == Offer(f, gates)[Awaited(f', |gates|)]
  {
    if c.Child? && c.upperRemainder == 0 && Poll(c.upper, UpperFuture(f), gates[..|gates| - 1]).1.Pending? {
      SuspendedWaitsForOffer(c.upper, UpperFuture(f), gates[..|gates| - 1]);
    }
  }

  /**
   The limiter of level `i` gives a piece in this poll: its token bucket is ready, or it has none and the pending call
   has not begun to wait for one.
   */
  predicate Admits(f: Future, gates: seq<Gate>, i: nat)
    requires i < |gates|
  {
    gates[i].ready || (!gates[i].limited && !WaitsAt(f, |gates|, i))
  }

  /** No limiter before level `n` that would have to give a piece refuses to. */
  ghost predicate AdmittedUpTo(b: seq<Counter>, f: Future, gates: seq<Gate>, n: nat)
    requires |b| == |gates| && n <= |b|
  {
    forall i :: 0 <= i < n && b[i].left == 0 ==> Admits(f, gates, i)
  }

  ghost predicate Refused(b: seq<Counter>, f: Future, gates: seq<Gate>, k: nat)
    requires |b| == |gates|
  {
    k < |b| && b[k].left == 0 && !Admits(f, gates, k) && AdmittedUpTo(b, f, gates, k)
  }

  lemma AdmitsAbove(f: Future, gates: seq<Gate>, i: nat)
    requires i < |gates| - 1 && !f.OnLimiter? && (f.OnUpper? ==> f.upper != Start)
    ensures Admits(f, gates, i) <==> Admits(UpperFuture(f), gates[..|gates| - 1], i)
  {
  }

  lemma LocalAdmits(f: Future, gates: seq<Gate>)
    requires |gates| > 1 && (f.OnUpper? ==> f.upper != Start)
    ensures Opens(f, gates[|gates| - 1]) <==> Admits(f, gates, |gates| - 1)
  {
  }

  /** The bank of the upper session decides about its levels. */
  lemma AdmittedAbove(c: Chain, f: Future, gates: seq<Gate>, n: nat)
    requires |gates| == Depth(c) && Fits(c, f) && c.Child? && c.upperRemainder == 0 && n < |gates|
    ensures AdmittedUpTo(Bank(c), f, gates, n)
       <==> AdmittedUpTo(Bank(c.upper), UpperFuture(f), gates[..|gates| - 1], n)
  {
    BankAboveIdle(c);
    forall i | 0 <= i < n
      ensures Bank(c)[i] == Bank(c.upper)[i]
      ensures Admits(f, gates, i) <==> Admits(UpperFuture(f), gates[..|gates| - 1], i)
    {
      AdmitsAbove(f, gates, i);
    }
  }

  lemma AdmittedOneMore(b: seq<Counter>, f: Future, gates: seq<Gate>, n: nat)
    requires |b| == |gates| && n < |b|
    ensures AdmittedUpTo(b, f, gates, n + 1)
       <==> AdmittedUpTo(b, f, gates, n) && (b[n].left == 0 ==> Admits(f, gates, n))
  {
  }

  /** Nothing is needed from above while some of what came from there is left. */
  lemma NothingNeededAbove(c: Chain, f: Future, gates: seq<Gate>)
    requires |gates| == Depth(c) && c.Child? && c.upperRemainder > 0
    ensures AdmittedUpTo(Bank(c), f, gates, |gates| - 1)
  {
  }

  /** The poll answers as the bank of its chain says. */
  ghost predicate AnswersBank(c: Chain, f: Future, gates: seq<Gate>)
    requires |gates| == Depth(c) && Fits(c, f)
  {
    match Poll(c, f, gates).1
    case Ready(_) => AdmittedUpTo(Bank(c), f, gates, |gates|)
    case Pending(f') => Refused(Bank(c), f, gates, Awaited(f', |gates|))
  }

  lemma LocalAnswersBank(c: Chain, f: Future, gates: seq<Gate>, upper': Chain, u: nat)
    requires |gates| == Depth(c) && Fits(c, f) && c.Child? && AdmittedUpTo(Bank(c), f, gates, |gates| - 1)
    requires Poll(c, f, gates) == PollLocal(upper', u, c.localRemainder, c.pieces, f, gates[|gates| - 1])
    ensures AnswersBank(c, f, gates)
  {
    LocalAdmits(f, gates);
    AdmittedOneMore(Bank(c), f, gates, |gates| - 1);
    assert Bank(c)[|gates| - 1].left == c.localRemainder;
  }

  lemma UpperAnswersBank(c: Chain, f: Future, gates: seq<Gate>, upper': Chain, f': Future)
    requires |gates| == Depth(c) && Fits(c, f) && c.Child? && c.upperRemainder == 0
    requires Poll(c, f, gates) == (Child(upper', 0, c.localRemainder, c.pieces), Pending(OnUpper(f')))
    requires Refused(Bank(c.upper), UpperFuture(f), gates[..|gates| - 1], Awaited(f', |gates| - 1))
    ensures AnswersBank(c, f, gates)
  {
    var k := Awaited(f', |gates| - 1);
    BankAboveIdle(c);
    AdmittedAbove(c, f, gates, k);
    AdmitsAbove(f, gates, k);
  }

  lemma {:induction false} PollAnswersBank(c: Chain, f: Future, gates: seq<Gate>)
    requires |gates| == Depth(c) && Fits(c, f)
    ensures AnswersBank(c, f, gates)
  {
    if c.Child? {
      var up := gates[..|gates| - 1];
      if c.upperRemainder > 0 {
        NothingNeededAbove(c, f, gates);
        LocalAnswersBank(c, f, gates, c.upper, c.upperRemainder);
      } else {
        PollAnswersBank(c.upper, UpperFuture(f), up);
        var (upper', p) := Poll(c.upper, UpperFuture(f), up);
        PollThroughUpper(c, f, gates, upper', p);
        if p.Pending? {
          UpperAnswersBank(c, f, gates, upper', p.future);
        } else {
          AdmittedAbove(c, f, gates, |gates| - 1);
          LocalAnswersBank(c, f, gates, upper', p.granted);
        }
      }
    }
  }

  /**
   A call completes exactly if every limiter it needs a piece of gives one; otherwise it waits at the first that does
   not.
   */
  lemma {:induction false} PollCompletesIff(c: Chain, f: Future, gates: seq<Gate>)
    requires |gates| == Depth(c) && Fits(c, f)
    ensures Poll(c, f, gates).1.Ready?
       <==> forall i :: 0 <= i < |gates| && Bank(c)[i].left == 0 ==> Admits(f, gates, i)
    ensures var p := Poll(c, f, gates).1;
            p.Pending? ==> Refused(Bank(c), f, gates, Awaited(p.future, |gates|))
  {
    PollAnswersBank(c, f, gates);
  }
}
