/**
 `SpeedState`: bytes spread over one-second buckets, merged into a list and pruned when they fall out of the window.
 The clock reading that `TimePicker::now` would return is a parameter of each operation.
 */
module SpeedStates {
  import opened Common
  import opened Arithmetic
  import opened SpeedHistory

  datatype DataItem = DataItem(size: nat, time: nat)

  function SaturatingSub(a: nat, b: nat): (r: nat)
    ensures a >= b ==> r + b == a
    ensures a <= b ==> r == 0
  {
    if a >= b then a - b else 0
  }

  /** The bytes the list holds for second `s`. */
  function At(items: seq<DataItem>, s: nat): nat {
    if items == [] then 0
    else At(items[..|items| - 1], s) + if items[|items| - 1].time == s then items[|items| - 1].size else 0
  }

  predicate HasBucket(items: seq<DataItem>, s: nat) {
    exists i :: 0 <= i < |items| && items[i].time == s
  }

  ghost predicate Increasing(items: seq<DataItem>) {
    forall i, j :: 0 <= i < j < |items| ==> items[i].time < items[j].time
  }

  ghost predicate EndsBy(items: seq<DataItem>, s: nat) {
    forall i :: 0 <= i < |items| ==> items[i].time <= s
  }

  /** Buckets are in order, one for a second, and none is later than `bound`. */
  ghost predicate Ordered(items: seq<DataItem>, bound: nat) {
    Increasing(items) && EndsBy(items, bound)
  }

  /** The items that `retain` keeps at second `now`. */
  function Retained(items: seq<DataItem>, now: nat, window: nat): (r: seq<DataItem>) {
    if items == [] then []
    else
      var x, rest := items[|items| - 1], Retained(items[..|items| - 1], now, window);
      if SaturatingSub(now, x.time) <= window then rest + [x] else rest
  }

  lemma AtSnoc(items: seq<DataItem>, x: DataItem, s: nat)
    ensures At(items + [x], s) == At(items, s) + if x.time == s then x.size else 0
  {
    assert (items + [x])[..|items|] == items;
  }

  /** Pruning one more item. */
  lemma RetainedSnoc(items: seq<DataItem>, x: DataItem, now: nat, window: nat)
    ensures Retained(items + [x], now, window)
         == Retained(items, now, window) + if x.time + window < now then [] else [x]
  {
    assert (items + [x])[..|items|] == items;
  }

  /** Pruning removes exactly the seconds that are older than the window. */
  lemma {:induction false} RetainedItems(items: seq<DataItem>, now: nat, window: nat, s: nat)
    ensures At(Retained(items, now, window), s) == if s + window < now then 0 else At(items, s)
    ensures HasBucket(Retained(items, now, window), s) <==> HasBucket(items, s) && now <= s + window
  {
    if items != [] {
      var x, rest := items[|items| - 1], items[..|items| - 1];
      RetainedItems(rest, now, window, s);
      assert items == rest + [x];
      RetainedSnoc(rest, x, now, window);
      AtSnoc(rest, x, s);
      BucketSnoc(rest, x, s);
      BucketSnoc(Retained(rest, now, window), x, s);
      AtSnoc(Retained(rest, now, window), x, s);
    }
  }

  lemma BucketSnoc(items: seq<DataItem>, x: DataItem, s: nat)
    ensures HasBucket(items + [x], s) <==> HasBucket(items, s) || x.time == s
  {
    if HasBucket(items, s) {
      var i :| 0 <= i < |items| && items[i].time == s;
      assert (items + [x])[i].time == s;
    }
    assert (items + [x])[|items|] == x;
  }

  lemma {:induction false} NothingStaleRetained(items: seq<DataItem>, now: nat, window: nat)
    ensures forall x :: x in Retained(items, now, window) ==> now <= x.time + window
  {
    if items != [] {
      NothingStaleRetained(items[..|items| - 1], now, window);
    }
  }

  lemma {:induction false} RetainedOrdered(items: seq<DataItem>, now: nat, window: nat, bound: nat)
    requires Ordered(items, bound)
    ensures Ordered(Retained(items, now, window), bound)
  {
    if items != [] {
      var x, rest := items[|items| - 1], items[..|items| - 1];
      if rest != [] {
        RetainedOrdered(rest, now, window, rest[|rest| - 1].time);
      }
    }
  }

  /** The list after `amount` bytes are credited to second `s`: merged into the last bucket or pushed behind it. */
  function Credited(items: seq<DataItem>, s: nat, amount: nat): (r: seq<DataItem>) {
    if items != [] && items[|items| - 1].time == s then
      items[|items| - 1 := DataItem(items[|items| - 1].size + amount, s)]
    else
      items + [DataItem(amount, s)]
  }

  lemma CreditedOrdered(items: seq<DataItem>, bound: nat, s: nat, amount: nat)
    requires Ordered(items, bound) && bound <= s
    ensures Ordered(Credited(items, s, amount), s)
  {
  }

  lemma CreditedAt(items: seq<DataItem>, s: nat, amount: nat, t: nat)
    ensures At(Credited(items, s, amount), t) == At(items, t) + if t == s then amount else 0
  {
    if items != [] && items[|items| - 1].time == s {
      assert Credited(items, s, amount)[..|items| - 1] == items[..|items| - 1];
    } else {
      AtSnoc(items, DataItem(amount, s), t);
    }
  }

  lemma CreditedBuckets(items: seq<DataItem>, s: nat, amount: nat, t: nat)
    ensures HasBucket(Credited(items, s, amount), t) <==> HasBucket(items, t) || t == s
  {
    if items != [] && items[|items| - 1].time == s {
      var items' := Credited(items, s, amount);
      assert forall i :: 0 <= i < |items| ==> items'[i].time == items[i].time;
    } else {
      BucketSnoc(items, DataItem(amount, s), t);
    }
  }

  predicate InWindow(x: DataItem, now: nat, window: nat) {
    x.time < now && SaturatingSub(now, x.time) <= window
  }

  function WindowSum(items: seq<DataItem>, now: nat, window: nat): nat {
    if items == [] then 0
    else
      var x := items[|items| - 1];
      WindowSum(items[..|items| - 1], now, window) + if InWindow(x, now, window) then x.size else 0
  }

  /** The first second of the window; the seconds that count are those before `now` that are not older than it. */
  function WindowStart(now: nat, window: nat): (lo: nat)
    ensures forall s: nat {:trigger s + window} :: lo <= s < now <==> s < now <= s + window
    ensures lo == 0 || lo + window == now
  {
    if now >= window then now - window else 0
  }

  /** The sum over the list is the sum over the seconds of the window. */
  lemma {:induction false} WindowSumBySeconds(start: nat, run: seq<Sample>, items: seq<DataItem>, now: nat, window: nat)
    requires forall s: nat :: now <= s + window ==> At(items, s) == Bytes(start, run, s)
    ensures WindowSum(items, now, window) == WindowBytes(start, run, WindowStart(now, window), now)
  {
    WindowSumUpTo(items, now, window);
    SameSums(start, run, items, WindowStart(now, window), now);
  }

  /** A run that ended before the window leaves nothing in it. */
  lemma StaleRunIsSlow(start: nat, run: seq<Sample>, now: nat, window: nat)
    ensures LastTime(start, run) / 1000 + window < now ==>
              WindowBytes(start, run, WindowStart(now, window), now) == 0
  {
    if LastTime(start, run) / 1000 + window < now {
      NothingAfterRun(start, run, WindowStart(now, window), now);
    }
  }

  function AtUpTo(items: seq<DataItem>, lo: nat, hi: nat): nat
    decreases hi
  {
    if hi <= lo then 0 else AtUpTo(items, lo, hi - 1) + At(items, hi - 1)
  }

  lemma {:induction false} SameSums(start: nat, run: seq<Sample>, items: seq<DataItem>, lo: nat, hi: nat)
    requires forall s: nat :: lo <= s < hi ==> At(items, s) == Bytes(start, run, s)
    ensures AtUpTo(items, lo, hi) == WindowBytes(start, run, lo, hi)
    decreases hi
  {
    if lo < hi {
      SameSums(start, run, items, lo, hi - 1);
    }
  }

  lemma {:induction false} AtUpToSnoc(items: seq<DataItem>, x: DataItem, lo: nat, hi: nat)
    ensures AtUpTo(items + [x], lo, hi) == AtUpTo(items, lo, hi) + if lo <= x.time < hi then x.size else 0
    decreases hi
  {
    if lo < hi {
      AtUpToSnoc(items, x, lo, hi - 1);
      AtSnoc(items, x, hi - 1);
    }
  }

  lemma {:induction false} WindowSumUpTo(items: seq<DataItem>, now: nat, window: nat)
    ensures WindowSum(items, now, window) == AtUpTo(items, WindowStart(now, window), now)
    decreases |items|
  {
    if items == [] {
      NothingUpTo(WindowStart(now, window), now);
    } else {
      var x, rest := items[|items| - 1], items[..|items| - 1];
      WindowSumUpTo(rest, now, window);
      assert items == rest + [x];
      AtUpToSnoc(rest, x, WindowStart(now, window), now);
    }
  }

  lemma {:induction false} NothingUpTo(lo: nat, hi: nat)
    ensures AtUpTo([], lo, hi) == 0
    decreases hi
  {
    if lo < hi {
      NothingUpTo(lo, hi - 1);
    }
  }

  /** The seconds a sample puts bytes into; there are `ceil(now / 1000) - floor(last / 1000)` of them after a change. */
  predicate Touched(last: nat, now: nat, s: nat) {
    if now / 1000 == last / 1000 then s == now / 1000 else last / 1000 <= s && 1000 * s < now
  }

  /** `after` is `before` with the shares of one sample added, in buckets for exactly the touched seconds. */
  ghost predicate Holds(before: seq<DataItem>, after: seq<DataItem>, size: nat, last: nat, now: nat)
    requires last <= now
  {
    && (forall s: nat :: At(after, s) == At(before, s) + Share(size, last, now, s))
    && (forall s: nat :: HasBucket(after, s) <==> HasBucket(before, s) || Touched(last, now, s))
  }

  lemma TouchesOne(size: nat, last: nat, now: nat, sec: nat, s: nat)
    requires last <= now && sec == last / 1000 == now / 1000
    ensures Share(size, last, now, s) == (if s == sec then size else 0) && (Touched(last, now, s) <==> s == sec)
  {
  }

  lemma CreditedHolds(items: seq<DataItem>, size: nat, last: nat, now: nat)
    requires last <= now && last / 1000 == now / 1000
    requires Ordered(items, now / 1000)
    ensures Holds(items, Credited(items, now / 1000, size), size, last, now)
    ensures Ordered(Credited(items, now / 1000, size), now / 1000)
  {
    var sec := now / 1000;
    CreditedOrdered(items, sec, sec, size);
    forall s: nat
      ensures At(Credited(items, sec, size), s) == At(items, s) + Share(size, last, now, s)
      ensures HasBucket(Credited(items, sec, size), s) <==> HasBucket(items, s) || Touched(last, now, s)
    {
      TouchesOne(size, last, now, sec, s);
      CreditedAt(items, sec, size, s);
      CreditedBuckets(items, sec, size, s);
    }
  }

  /** The list after `amounts` are credited to the seconds from `lo` on, one after the other. */
  function Poured(items: seq<DataItem>, lo: nat, amounts: seq<nat>): seq<DataItem> {
    if amounts == [] then items
    else
      var k := |amounts| - 1;
      Credited(Poured(items, lo, amounts[..k]), lo + k, amounts[k])
  }

  lemma OrderedAt(items: seq<DataItem>, bound: nat, later: nat)
    requires Ordered(items, bound) && bound <= later
    ensures Ordered(items, later)
  {
  }

  lemma {:induction false} PouredOrderedBy(items: seq<DataItem>, lo: nat, amounts: seq<nat>)
    requires Ordered(items, lo)
    ensures Ordered(Poured(items, lo, amounts), lo + |amounts|)
  {
    if amounts != [] {
      var k := |amounts| - 1;
      PouredOrderedBy(items, lo, amounts[..k]);
      CreditedOrdered(Poured(items, lo, amounts[..k]), lo + k, lo + k, amounts[k]);
      OrderedAt(Poured(items, lo, amounts), lo + k, lo + k + 1);
    }
  }

  lemma {:induction false} PouredOrdered(items: seq<DataItem>, lo: nat, amounts: seq<nat>)
    requires Ordered(items, lo) && amounts != []
    ensures Ordered(Poured(items, lo, amounts), lo + |amounts| - 1)
  {
    var k := |amounts| - 1;
    PouredOrderedBy(items, lo, amounts[..k]);
    CreditedOrdered(Poured(items, lo, amounts[..k]), lo + k, lo + k, amounts[k]);
  }

  lemma {:induction false} PouredBuckets(items: seq<DataItem>, lo: nat, amounts: seq<nat>, s: nat)
    ensures HasBucket(Poured(items, lo, amounts), s) <==> HasBucket(items, s) || lo <= s < lo + |amounts|
  {
    if amounts != [] {
      var k := |amounts| - 1;
      PouredBuckets(items, lo, amounts[..k], s);
      CreditedBuckets(Poured(items, lo, amounts[..k]), lo + k, amounts[k], s);
    }
  }

  /** The amounts meant for second `s`, if they are for the seconds from `lo` on. */
  function Meant(lo: nat, amounts: seq<nat>, s: nat): nat {
    if amounts == [] then 0
    else Meant(lo, amounts[..|amounts| - 1], s) + if s == lo + |amounts| - 1 then amounts[|amounts| - 1] else 0
  }

  lemma PourOneAt(items: seq<DataItem>, prev: seq<DataItem>, lo: nat, amounts: seq<nat>, s: nat)
    requires amounts != [] && At(prev, s) == At(items, s) + Meant(lo, amounts[..|amounts| - 1], s)
    ensures At(Credited(prev, lo + |amounts| - 1, amounts[|amounts| - 1]), s) == At(items, s) + Meant(lo, amounts, s)
  {
    CreditedAt(prev, lo + |amounts| - 1, amounts[|amounts| - 1], s);
  }

  /** Second `s` gains the amount meant for it. */
  lemma {:induction false} PouredAt(items: seq<DataItem>, lo: nat, amounts: seq<nat>, s: nat)
    ensures At(Poured(items, lo, amounts), s) == At(items, s) + Meant(lo, amounts, s)
  {
    if amounts != [] {
      var k := |amounts| - 1;
      PouredAt(items, lo, amounts[..k], s);
      PourOneAt(items, Poured(items, lo, amounts[..k]), lo, amounts, s);
    }
  }

  /** The shares of the `k` seconds from `lo` on. */
  function SharesOf(size: nat, last: nat, now: nat, lo: nat, k: nat): (r: seq<nat>)
    requires last <= now
    ensures |r| == k
  {
    if k == 0 then [] else SharesOf(size, last, now, lo, k - 1) + [Share(size, last, now, lo + k - 1)]
  }

  lemma {:induction false} SharesMeant(size: nat, last: nat, now: nat, lo: nat, k: nat, s: nat)
    requires last <= now
    ensures Meant(lo, SharesOf(size, last, now, lo, k), s) == if lo <= s < lo + k then Share(size, last, now, s) else 0
  {
    if k > 0 {
      SharesMeant(size, last, now, lo, k - 1, s);
      MeantSnoc(lo, SharesOf(size, last, now, lo, k - 1), Share(size, last, now, lo + k - 1), s);
    }
  }

  lemma {:induction false} MeantSnoc(lo: nat, amounts: seq<nat>, x: nat, s: nat)
    ensures Meant(lo, amounts + [x], s) == Meant(lo, amounts, s) + if s == lo + |amounts| then x else 0
  {
    assert (amounts + [x])[..|amounts|] == amounts;
  }

  lemma {:induction false} SharesSum(size: nat, last: nat, now: nat, lo: nat, k: nat)
    requires last <= now
    ensures Sum(SharesOf(size, last, now, lo, k)) == SharesUpTo(size, last, now, lo, lo + k)
  {
    if k > 0 {
      SharesSum(size, last, now, lo, k - 1);
      SumSnoc(SharesOf(size, last, now, lo, k - 1), Share(size, last, now, lo + k - 1));
    }
  }

  /** The parts of `[last, now)` in the `k` seconds from `lo` on. */
  function OverlapsOf(last: nat, now: nat, lo: nat, k: nat): (r: seq<nat>)
    requires last <= now
    ensures |r| == k
  {
    if k == 0 then [] else OverlapsOf(last, now, lo, k - 1) + [Overlap(last, now, lo + k - 1)]
  }

  lemma {:induction false} OverlapsAt(last: nat, now: nat, lo: nat, k: nat, j: nat)
    requires last <= now && j < k
    ensures OverlapsOf(last, now, lo, k)[j] == Overlap(last, now, lo + j)
  {
    if j < k - 1 {
      OverlapsAt(last, now, lo, k - 1, j);
    }
  }

  lemma {:induction false} OverlapsSum(last: nat, now: nat, lo: nat, k: nat)
    requires last <= now
    ensures Sum(OverlapsOf(last, now, lo, k)) == OverlapsUpTo(last, now, lo, lo + k)
  {
    if k > 0 {
      OverlapsSum(last, now, lo, k - 1);
      SumSnoc(OverlapsOf(last, now, lo, k - 1), Overlap(last, now, lo + k - 1));
    }
  }

  /** What is in place after the first `k` segments, what they put into buckets, and what they weighed. */
  ghost predicate Spreading(before: seq<DataItem>, items: seq<DataItem>, put: int, weights: seq<nat>, size: nat,
                            last: nat, now: nat, lo: nat, k: nat)
    requires last <= now
  {
    && items == Poured(before, lo, SharesOf(size, last, now, lo, k))
    && put == Sum(SharesOf(size, last, now, lo, k)) && weights == OverlapsOf(last, now, lo, k)
  }

  lemma SpreadingStarts(items: seq<DataItem>, size: nat, last: nat, now: nat, lo: nat)
    requires last <= now
    ensures Spreading(items, items, 0, [], size, last, now, lo, 0)
  {
  }

  lemma {:induction false} SpreadSegment(before: seq<DataItem>, items: seq<DataItem>, put: int, weights: seq<nat>,
                                         size: nat, last: nat, now: nat, lo: nat, k: nat, sec: nat, x: nat,
                                         weight: nat)
    requires last <= now && sec == lo + k && Spreading(before, items, put, weights, size, last, now, lo, k)
    requires weight == Overlap(last, now, sec) && x == Share(size, last, now, sec)
    ensures Spreading(before, Credited(items, sec, x), put + x, weights + [weight], size, last, now, lo, k + 1)
  {
    PouredSnoc(before, lo, SharesOf(size, last, now, lo, k), x);
    SumSnoc(SharesOf(size, last, now, lo, k), x);
  }

  lemma {:induction false} PouredSnoc(items: seq<DataItem>, lo: nat, amounts: seq<nat>, x: nat)
    ensures Poured(items, lo, amounts + [x]) == Credited(Poured(items, lo, amounts), lo + |amounts|, x)
  {
    assert (amounts + [x])[..|amounts|] == amounts;
  }

  /** Where the loop stands after `k` segments, the first of which is for second `lo`. */
  predicate Cursor(last: nat, now: nat, lo: nat, k: nat, pos: nat, offset: nat, sec: nat) {
    && sec == lo + k && last + pos + offset == 1000 * sec + 1000 && 1000 * sec < now + 1000
    && if k == 0 then pos == 0 && offset > 0 else offset == 1000
  }

  /** Once the segments reach `now`, everything is in place. */
  lemma {:induction false} SpreadingEnds(before: seq<DataItem>, items: seq<DataItem>, put: int, weights: seq<nat>,
                                         size: nat, last: nat, now: nat, lo: nat, k: nat)
    requires lo == last / 1000 < now / 1000 && now <= 1000 * (lo + k) < now + 1000
    requires Ordered(before, lo) && Spreading(before, items, put, weights, size, last, now, lo, k)
    ensures put == SharesUpTo(size, last, now, lo, now / 1000 + 1)
    ensures Ordered(items, now / 1000) && Holds(before, items, size, last, now)
  {
    SharesSum(size, last, now, lo, k);
    LastShareIsNone(size, last, now, lo + k);
    PouredOrdered(before, lo, SharesOf(size, last, now, lo, k));
    OrderedAt(items, lo + k - 1, now / 1000);
    PouredHolds(before, size, last, now, lo, k);
  }

  /** The segments weigh the parts of the interval in each second from `lo` on, and together all of it. */
  ghost predicate Weighed(weights: seq<nat>, last: nat, now: nat, lo: nat)
    requires last <= now
  {
    && |weights| == Segments(last, now) && Sum(weights) == now - last
    && forall k :: 0 <= k < |weights| ==> weights[k] == Overlap(last, now, lo + k)
  }

  lemma SegmentCount(last: nat, now: nat, lo: nat, k: nat)
    requires lo == last / 1000 < now / 1000 && now <= 1000 * (lo + k) < now + 1000
    ensures k == Segments(last, now) && lo < lo + k && Min(now, 1000 * (lo + k)) == now
  {
  }

  lemma {:induction false} WeightsTotal(last: nat, now: nat, lo: nat, k: nat)
    requires lo == last / 1000 && last <= now && lo < lo + k && Min(now, 1000 * (lo + k)) == now
    ensures Sum(OverlapsOf(last, now, lo, k)) == now - last
  {
    OverlapsSum(last, now, lo, k);
    OverlapsCover(last, now, lo + k);
  }

  lemma {:induction false} WeightsAddUp(last: nat, now: nat, lo: nat, k: nat)
    requires lo == last / 1000 < now / 1000 && now <= 1000 * (lo + k) < now + 1000
    ensures Weighed(OverlapsOf(last, now, lo, k), last, now, lo)
  {
    SegmentCount(last, now, lo, k);
    WeightsTotal(last, now, lo, k);
    forall j | 0 <= j < k
      ensures OverlapsOf(last, now, lo, k)[j] == Overlap(last, now, lo + j)
    {
      OverlapsAt(last, now, lo, k, j);
    }
  }

  /** A second that begins at `now` or later has no share. */
  lemma ShareAfter(size: nat, last: nat, now: nat, s: nat)
    requires last / 1000 < now / 1000 && now <= 1000 * s
    ensures Share(size, last, now, s) == 0
  {
    ScaleNone(size, now - last);
  }

  lemma {:induction false} PouredShare(items: seq<DataItem>, size: nat, last: nat, now: nat, lo: nat, k: nat, s: nat)
    requires lo == last / 1000 < now / 1000 && now <= 1000 * (lo + k) < now + 1000
    ensures At(Poured(items, lo, SharesOf(size, last, now, lo, k)), s) == At(items, s) + Share(size, last, now, s)
  {
    PouredAt(items, lo, SharesOf(size, last, now, lo, k), s);
    SharesMeant(size, last, now, lo, k, s);
    if s < lo {
      ShareOutside(size, last, now, s);
    } else if s >= lo + k {
      ShareAfter(size, last, now, s);
    }
  }

  lemma {:induction false} PouredTouched(items: seq<DataItem>, size: nat, last: nat, now: nat, lo: nat, k: nat, s: nat)
    requires lo == last / 1000 < now / 1000 && now <= 1000 * (lo + k) < now + 1000
    ensures HasBucket(Poured(items, lo, SharesOf(size, last, now, lo, k)), s)
       <==> HasBucket(items, s) || Touched(last, now, s)
  {
    PouredBuckets(items, lo, SharesOf(size, last, now, lo, k), s);
  }

  /** Once the segments reach `now`, all shares are in place. */
  lemma {:induction false} PouredHolds(items: seq<DataItem>, size: nat, last: nat, now: nat, lo: nat, k: nat)
    requires lo == last / 1000 < now / 1000 && now <= 1000 * (lo + k) < now + 1000
    ensures Holds(items, Poured(items, lo, SharesOf(size, last, now, lo, k)), size, last, now)
  {
    var items' := Poured(items, lo, SharesOf(size, last, now, lo, k));
    forall s: nat
      ensures At(items', s) == At(items, s) + Share(size, last, now, s)
    {
      PouredShare(items, size, last, now, lo, k, s);
    }
    forall s: nat
      ensures HasBucket(items', s) <==> HasBucket(items, s) || Touched(last, now, s)
    {
      PouredTouched(items, size, last, now, lo, k, s);
    }
  }

  /** What the loop credits in a segment is the share of its second. */
  lemma SegmentShare(size: nat, last: nat, now: nat, sec: nat, pos: nat, offset: nat, weight: nat)
    requires last / 1000 < now / 1000 && last / 1000 <= sec && pos < now - last
    requires last + pos + offset == 1000 * sec + 1000
    requires if sec == last / 1000 then pos == 0 else offset == 1000
    requires weight == if pos + offset > now - last then now - last - pos else offset
    ensures weight == Overlap(last, now, sec) && Scale(size, weight, now - last) == Share(size, last, now, sec)
  {
    assert weight == Overlap(last, now, sec);
  }

  /** Every second still in the window holds exactly the bytes the reference gives it. */
  ghost predicate WindowExact(start: nat, run: seq<Sample>, items: seq<DataItem>, window: nat) {
    forall s: nat :: LastTime(start, run) / 1000 <= s + window ==> At(items, s) == Bytes(start, run, s)
  }

  /** Stale seconds that come back behind a pruned list never reach the window. */
  lemma WindowStaysExact(start: nat, run: seq<Sample>, before: seq<DataItem>, after: seq<DataItem>, x: Sample,
                         window: nat)
    requires WindowExact(start, run, before, window)
    requires var last := LastTime(start, run);
             var now := Max(x.clock, last);
             Holds(Retained(before, now / 1000, window), after, x.size, last, now)
    ensures WindowExact(start, run + [x], after, window)
  {
    assert (run + [x])[..|run|] == run;
    var now := LastTime(start, run + [x]);
    forall s: nat | now / 1000 <= s + window
      ensures At(after, s) == Bytes(start, run + [x], s)
    {
      RetainedItems(before, now / 1000, window, s);
    }
  }

  /** What a sample adds to the buckets is what it adds to the history. */
  lemma CreditedIsWindow(start: nat, run: seq<Sample>, x: Sample, put: nat, put': nat)
    requires put == WindowBytes(start, run, 0, LastTime(start, run) / 1000 + 1)
    requires var last, now := LastTime(start, run), Max(x.clock, LastTime(start, run));
             put' == put + SharesUpTo(x.size, last, now, last / 1000, now / 1000 + 1)
    ensures put' == WindowBytes(start, run + [x], 0, LastTime(start, run + [x]) / 1000 + 1)
    ensures var last, now := LastTime(start, run), Max(x.clock, LastTime(start, run));
            put' - put <= x.size < put' - put + Segments(last, now)
  {
    var last, now := LastTime(start, run), Max(x.clock, LastTime(start, run));
    assert (run + [x])[..|run|] == run;
    WindowSnoc(start, run, x, 0, now / 1000 + 1);
    WindowAhead(start, run, now / 1000 + 1);
    SharesTrim(x.size, last, now, now / 1000 + 1);
    SampleLoss(x.size, last, now);
  }

  /**
   The run invariant: totals and last time are those of the run, buckets are in order and not ahead of it, the window
   is exact, and all bytes ever put into buckets are those of the history.
   */
  ghost predicate Tracked(start: nat, run: seq<Sample>, sumSize: nat, lastTime: nat, items: seq<DataItem>, window: nat,
                          credited: nat)
  {
    && sumSize == TotalSize(run) && lastTime == LastTime(start, run)
    && Ordered(items, lastTime / 1000)
    && WindowExact(start, run, items, window)
    && credited == WindowBytes(start, run, 0, lastTime / 1000 + 1)
  }

  /** What a sample changes, put together. */
  lemma {:induction false} SampleAdded(start: nat, run: seq<Sample>, sumSize: nat, last: nat, before: seq<DataItem>,
                                       after: seq<DataItem>, window: nat, put: nat, put': nat, x: Sample, now: nat)
    requires Tracked(start, run, sumSize, last, before, window, put) && now == Max(x.clock, last)
    requires Ordered(after, now / 1000) && Holds(Retained(before, now / 1000, window), after, x.size, last, now)
    requires put' == put + SharesUpTo(x.size, last, now, last / 1000, now / 1000 + 1)
    ensures Tracked(start, run + [x], sumSize + x.size, now, after, window, put')
    ensures put' - put <= x.size < put' - put + Segments(last, now)
  {
    assert (run + [x])[..|run|] == run;
    CreditedIsWindow(start, run, x, put, put');
    WindowStaysExact(start, run, before, after, x, window);
  }

  class SpeedState {
    var sumSize: nat
    var lastTime: nat
    const speedDuration: nat
    var dataItems: seq<DataItem>

    ghost const start: nat
    ghost var run: seq<Sample>
    /** All bytes ever put into buckets. */
    ghost var credited: nat

    ghost predicate Valid()
      reads this
    {
      speedDuration > 0 && Tracked(start, run, sumSize, lastTime, dataItems, speedDuration, credited)
    }

    constructor (speedDuration: nat, clock: nat)
      requires speedDuration > 0
      ensures Valid() && this.speedDuration == speedDuration && start == clock && run == [] && credited == 0
    {
      this.sumSize := 0;
      this.lastTime := clock;
      this.speedDuration := speedDuration;
      this.dataItems := [];
      this.start := clock;
      this.run := [];
      this.credited := 0;
      EmptyWindow(clock, clock / 1000 + 1);
    }

    /** Drops the items that are too old at `now`; `retain` keeps the order of the others. */
    method ClearInvalidItem(now: nat)
      modifies this`dataItems
      ensures dataItems == Retained(old(dataItems), now / 1000, speedDuration)
      ensures forall x :: x in dataItems ==> now / 1000 <= x.time + speedDuration
    {
      var kept, i := [], 0;
      while i < |dataItems|
        invariant 0 <= i <= |dataItems| && dataItems == old(dataItems)
        invariant kept == Retained(dataItems[..i], now / 1000, speedDuration)
      {
        assert dataItems[..i + 1][..i] == dataItems[..i];
        if SaturatingSub(now / 1000, dataItems[i].time) <= speedDuration {
          kept := kept + [dataItems[i]];
        }
        i := i + 1;
      }
      assert dataItems[..i] == dataItems;
      NothingStaleRetained(dataItems, now / 1000, speedDuration);
      dataItems := kept;
    }

    /** Merges bytes into the bucket of second `sec`, or pushes a bucket. */
    method Credit(sec: nat, amount: nat)
      modifies this`dataItems, this`credited
      ensures dataItems == Credited(old(dataItems), sec, amount) && credited == old(credited) + amount
    {
      credited := credited + amount;
      if |dataItems| == 0 {
        dataItems := dataItems + [DataItem(amount, sec)];
      } else {
        var last := dataItems[|dataItems| - 1];
        if last.time == sec {
          dataItems := dataItems[|dataItems| - 1 := DataItem(last.size + amount, sec)];
        } else {
          dataItems := dataItems + [DataItem(amount, sec)];
        }
      }
    }

    /**
     Bytes of a sample go to the second of the clock if it did not change, or are spread over all seconds since the
     last sample; buckets exist exactly for the retained and the touched seconds.
     */
    method AddData(size: nat, clock: nat)
      requires Valid()
      modifies this
      ensures Valid() && run == old(run) + [Sample(size, clock)]
      ensures lastTime == Max(clock, old(lastTime))
      ensures Holds(Retained(old(dataItems), lastTime / 1000, speedDuration), dataItems, size, old(lastTime), lastTime)
      ensures credited - old(credited) <= size < credited - old(credited) + Segments(old(lastTime), lastTime)
    {
      ghost var before, put, sum := dataItems, credited, sumSize;
      sumSize := sumSize + size;
      var now := Max(clock, lastTime);
      PruneAndPlace(size, now);
      SampleAdded(start, run, sum, lastTime, before, dataItems, speedDuration, put, credited, Sample(size, clock), now);
      run := run + [Sample(size, clock)];
      lastTime := now;
    }

    method PruneAndPlace(size: nat, now: nat)
      requires lastTime <= now && Ordered(dataItems, lastTime / 1000)
      modifies this`dataItems, this`credited
      ensures credited == old(credited) + SharesUpTo(size, lastTime, now, lastTime / 1000, now / 1000 + 1)
      ensures Ordered(dataItems, now / 1000)
      ensures Holds(Retained(old(dataItems), now / 1000, speedDuration), dataItems, size, lastTime, now)
    {
      RetainedOrdered(dataItems, now / 1000, speedDuration, lastTime / 1000);
      ClearInvalidItem(now);
      Place(size, now);
    }

    /** Puts the bytes into the bucket of the current second, or spreads them. */
    method Place(size: nat, now: nat)
      requires lastTime <= now && Ordered(dataItems, lastTime / 1000)
      modifies this`dataItems, this`credited
      ensures credited == old(credited) + SharesUpTo(size, lastTime, now, lastTime / 1000, now / 1000 + 1)
      ensures Ordered(dataItems, now / 1000) && Holds(old(dataItems), dataItems, size, lastTime, now)
    {
      if now / 1000 == lastTime / 1000 {
        CreditedHolds(dataItems, size, lastTime, now);
        Credit(now / 1000, size);
        assert SharesUpTo(size, lastTime, now, now / 1000, now / 1000) == 0;
      } else {
        ghost var weights := Spread(size, now);
      }
    }

    /** The segment loop: one segment for each second that `[lastTime, now)` touches, weighing its part of it. */
    method Spread(size: nat, now: nat) returns (ghost weights: seq<nat>)
      requires lastTime / 1000 < now / 1000
      requires Ordered(dataItems, lastTime / 1000)
      modifies this`dataItems, this`credited
      ensures Weighed(weights, lastTime, now, lastTime / 1000)
      ensures credited == old(credited) + SharesUpTo(size, lastTime, now, lastTime / 1000, now / 1000 + 1)
      ensures Ordered(dataItems, now / 1000)
      ensures Holds(old(dataItems), dataItems, size, lastTime, now)
    {
      ghost var before, put, k := dataItems, credited, 0;
      weights, k := SpreadSegments(size, now);
      SpreadingEnds(before, dataItems, credited - put, weights, size, lastTime, now, lastTime / 1000, k);
      WeightsAddUp(lastTime, now, lastTime / 1000, k);
    }

    /** The loop itself, which makes `k` segments. */
    method SpreadSegments(size: nat, now: nat) returns (ghost weights: seq<nat>, ghost k: nat)
      requires lastTime / 1000 < now / 1000
      modifies this`dataItems, this`credited
      ensures now <= 1000 * (lastTime / 1000 + k) < now + 1000
      ensures Spreading(old(dataItems), dataItems, credited - old(credited), weights, size, lastTime, now,
                        lastTime / 1000, k)
    {
      var duration := now - lastTime;
      var pos: nat, offset: nat, sec: nat := 0, 1000 - lastTime % 1000, lastTime / 1000;
      ghost var before, put, lo := dataItems, credited, sec;
      weights, k := [], 0;
      SpreadingStarts(before, size, lastTime, now, lo);
      while pos < duration
        invariant Cursor(lastTime, now, lo, k, pos, offset, sec)
        invariant Spreading(before, dataItems, credited - put, weights, size, lastTime, now, lo, k)
        decreases duration - pos
      {
        weights := SpreadOne(size, now, pos, offset, sec, before, put, weights, lo, k);
        k := k + 1;
        pos := pos + offset;
        offset := 1000;
        sec := sec + 1;
      }
    }

    /** The body of the loop. */
    method SpreadOne(size: nat, now: nat, pos: nat, offset: nat, sec: nat, ghost before: seq<DataItem>, ghost put: nat,
                     ghost weights: seq<nat>, ghost lo: nat, ghost k: nat)
      returns (ghost weights': seq<nat>)
      requires lo == lastTime / 1000 < now / 1000 && pos < now - lastTime
      requires Cursor(lastTime, now, lo, k, pos, offset, sec)
      requires Spreading(before, dataItems, credited - put, weights, size, lastTime, now, lo, k)
      modifies this`dataItems, this`credited
      ensures Spreading(before, dataItems, credited - put, weights', size, lastTime, now, lo, k + 1)
    {
      ghost var items, put' := dataItems, credited - put;
      var weight, dataSize := Segment(size, now, pos, offset, sec, lo, k);
      SpreadSegment(before, items, put', weights, size, lastTime, now, lo, k, sec, dataSize, weight);
      weights' := weights + [weight];
    }

    /** One segment: second `sec` gets its part of the bytes. */
    method Segment(size: nat, now: nat, pos: nat, offset: nat, sec: nat, ghost lo: nat, ghost k: nat)
      returns (weight: nat, dataSize: nat)
      requires lo == lastTime / 1000 < now / 1000 && pos < now - lastTime
      requires Cursor(lastTime, now, lo, k, pos, offset, sec)
      modifies this`dataItems, this`credited
      ensures weight == Overlap(lastTime, now, sec) && dataSize == Share(size, lastTime, now, sec)
      ensures dataItems == Credited(old(dataItems), sec, dataSize) && credited == old(credited) + dataSize
    {
      var duration := now - lastTime;
      weight := if pos + offset > duration then duration - pos else offset;
      dataSize := Scale(size, weight, duration);
      SegmentShare(size, lastTime, now, sec, pos, offset, weight);
      Credit(sec, dataSize);
    }

    method GetSpeed(clock: nat) returns (speed: nat)
      requires Valid()
      ensures var now := Max(clock, lastTime) / 1000;
              speed == WindowBytes(start, run, WindowStart(now, speedDuration), now) / speedDuration
      ensures lastTime / 1000 + speedDuration < clock / 1000 ==> speed == 0
    {
      var sum := SumRun(clock);
      QuotientIsDivision(sum, speedDuration);
      speed := sum / speedDuration;
    }

    /** What the loop adds up is what the history says. */
    method SumRun(clock: nat) returns (sum: nat)
      requires Valid()
      ensures var now := Max(clock, lastTime) / 1000;
              sum == WindowBytes(start, run, WindowStart(now, speedDuration), now)
      ensures lastTime / 1000 + speedDuration < clock / 1000 ==> sum == 0
    {
      var now := Max(clock, lastTime) / 1000;
      sum := SumWindow(now);
      WindowSumBySeconds(start, run, dataItems, now, speedDuration);
      StaleRunIsSlow(start, run, now, speedDuration);
    }

    /** The accumulating loop over the items. */
    method SumWindow(now: nat) returns (sum: nat)
      ensures sum == WindowSum(dataItems, now, speedDuration)
    {
      var i := 0;
      sum := 0;
      while i < |dataItems|
        invariant 0 <= i <= |dataItems|
        invariant sum == WindowSum(dataItems[..i], now, speedDuration)
      {
        assert dataItems[..i + 1][..i] == dataItems[..i];
        if dataItems[i].time < now && SaturatingSub(now, dataItems[i].time) <= speedDuration {
          sum := sum + dataItems[i].size;
        }
        i := i + 1;
      }
      assert dataItems[..i] == dataItems;
    }

    method GetSumSize() returns (size: nat)
      requires Valid()
      ensures size == TotalSize(run)
      ensures credited <= size < credited + Segments(start, lastTime)
    {
      RoundingLoss(start, run);
      size := sumSize;
    }
  }

  /**
   Pruning is invisible: after any run of samples, with a clock that may move backwards at any time, the reported
   speed is the window sum of the reference history, and the reported total is the sum of all sizes, which exceeds
   all bytes ever put into buckets by at most one byte for each second from the first to the last, but one.
   */
  method Track(start: nat, speedDuration: nat, run: seq<Sample>, clock: nat)
    returns (speed: nat, total: nat, ghost credited: nat)
    requires speedDuration > 0
    ensures var now := Max(clock, LastTime(start, run)) / 1000;
            speed == WindowBytes(start, run, WindowStart(now, speedDuration), now) / speedDuration
    ensures LastTime(start, run) / 1000 + speedDuration < clock / 1000 ==> speed == 0
    ensures total == TotalSize(run) && credited <= total < credited + Segments(start, LastTime(start, run))
    ensures credited == WindowBytes(start, run, 0, LastTime(start, run) / 1000 + 1)
  {
    var state := new SpeedState(speedDuration, start);
    var i := 0;
    while i < |run|
      invariant 0 <= i <= |run|
      invariant fresh(state) && state.Valid() && state.speedDuration == speedDuration && state.start == start
      invariant state.run == run[..i]
    {
      state.AddData(run[i].size, run[i].clock);
      assert run[..i + 1] == run[..i] + [Sample(run[i].size, run[i].clock)];
      i := i + 1;
    }
    assert run[..i] == run;
    speed := state.GetSpeed(clock);
    total := state.GetSumSize();
    credited := state.credited;
  }
}
