/**
 The reference meaning of the speed statistics: how many bytes of each sample belong to each second, with no buckets,
 no merging and no pruning.  Times are in milliseconds, seconds are counted from the same origin.
 */
module SpeedHistory {
  import opened Common
  import opened Arithmetic

  /** Bytes reported at a clock reading; the clock may have moved backwards since the last sample. */
  datatype Sample = Sample(size: nat, clock: nat)

  /** The latest clock reading so far. */
  function LastTime(start: nat, run: seq<Sample>): (t: nat)
    ensures t >= start
  {
    if run == [] then start else Max(run[|run| - 1].clock, LastTime(start, run[..|run| - 1]))
  }

  function TotalSize(run: seq<Sample>): nat {
    if run == [] then 0 else TotalSize(run[..|run| - 1]) + run[|run| - 1].size
  }

  /** How many milliseconds of `[last, now)` lie in second `s`. */
  function Overlap(last: nat, now: nat, s: nat): nat
    requires last <= now
  {
    var lo, hi := Max(last, 1000 * s), Min(now, 1000 * s + 1000);
    if lo < hi then hi - lo else 0
  }

  /** The bytes of a sample that belong to second `s`: proportional to the overlap, rounded down. */
  function Share(size: nat, last: nat, now: nat, s: nat): nat
    requires last <= now
  {
    if now / 1000 == last / 1000 then (if s == now / 1000 then size else 0)
    else Scale(size, Overlap(last, now, s), now - last)
  }

  function Bytes(start: nat, run: seq<Sample>, s: nat): nat {
    if run == [] then 0
    else
      var prev := run[..|run| - 1];
      Bytes(start, prev, s) + Share(run[|run| - 1].size, LastTime(start, prev), LastTime(start, run), s)
  }

  /** All bytes of the seconds from `lo` up to but not including `hi`. */
  function WindowBytes(start: nat, run: seq<Sample>, lo: nat, hi: nat): nat
    decreases hi
  {
    if hi <= lo then 0 else WindowBytes(start, run, lo, hi - 1) + Bytes(start, run, hi - 1)
  }

  function OverlapsUpTo(last: nat, now: nat, lo: nat, hi: nat): nat
    requires last <= now
    decreases hi
  {
    if hi <= lo then 0 else OverlapsUpTo(last, now, lo, hi - 1) + Overlap(last, now, hi - 1)
  }

  /** The seconds from the one of `last` up to second `hi` cover the interval up to second `hi` exactly. */
  lemma {:induction false} OverlapsCover(last: nat, now: nat, hi: nat)
    requires last <= now && last / 1000 < hi
    ensures OverlapsUpTo(last, now, last / 1000, hi) == Min(now, 1000 * hi) - last
    decreases hi
  {
    if last / 1000 < hi - 1 {
      OverlapsCover(last, now, hi - 1);
    } else {
      assert OverlapsUpTo(last, now, last / 1000, hi - 1) == 0;
    }
  }

  // ---------------------------------------------------------------------------------------------------------
  // Rounding loss
  // ---------------------------------------------------------------------------------------------------------

  function SharesUpTo(size: nat, last: nat, now: nat, lo: nat, hi: nat): nat
    requires last <= now
    decreases hi
  {
    if hi <= lo then 0 else SharesUpTo(size, last, now, lo, hi - 1) + Share(size, last, now, hi - 1)
  }

  /** The shares of a sample up to second `hi` miss at most one byte for each second after the first. */
  lemma {:induction false} SharesAreNearlyExact(size: nat, last: nat, now: nat, hi: nat)
    requires last / 1000 < now / 1000 && last / 1000 < hi <= now / 1000 + 1
    ensures var exact := Scale(size, Min(now, 1000 * hi) - last, now - last);
            var sum := SharesUpTo(size, last, now, last / 1000, hi);
            sum <= exact <= sum + (hi - 1 - last / 1000)
  {
    var w := Overlap(last, now, hi - 1);
    if hi - 1 > last / 1000 {
      SharesAreNearlyExact(size, last, now, hi - 1);
      ScaleAdd(size, Min(now, 1000 * (hi - 1)) - last, w, now - last);
    } else {
      assert SharesUpTo(size, last, now, last / 1000, hi - 1) == 0;
    }
  }

  /** How many seconds a sample puts bytes into. */
  function Segments(last: nat, now: nat): (n: nat)
    requires last <= now
    ensures n > 0
  {
    if now / 1000 == last / 1000 then 1 else (now + 999) / 1000 - last / 1000
  }

  lemma SegmentsAdd(start: nat, last: nat, now: nat)
    requires start <= last <= now
    ensures Segments(start, last) + Segments(last, now) <= Segments(start, now) + 1
  {
  }

  /** The segments stop at `now`; if a second begins there, it has no share. */
  lemma LastShareIsNone(size: nat, last: nat, now: nat, hi: nat)
    requires last / 1000 < now / 1000 && last / 1000 <= hi && now <= 1000 * hi < now + 1000
    ensures SharesUpTo(size, last, now, last / 1000, hi) == SharesUpTo(size, last, now, last / 1000, now / 1000 + 1)
  {
    if hi == now / 1000 {
      ScaleNone(size, now - last);
    }
  }

  /** One sample loses at most one byte for each of its segments but one. */
  lemma SampleLoss(size: nat, last: nat, now: nat)
    requires last <= now
    ensures var sum := SharesUpTo(size, last, now, last / 1000, now / 1000 + 1);
            sum <= size < sum + Segments(last, now)
  {
    if last / 1000 < now / 1000 {
      var hi := (now + 999) / 1000;
      SharesAreNearlyExact(size, last, now, hi);
      LastShareIsNone(size, last, now, hi);
      ScaleWhole(size, now - last);
    } else {
      assert SharesUpTo(size, last, now, now / 1000, now / 1000) == 0;
    }
  }

  /** No byte belongs to a second outside the interval of its sample. */
  lemma ShareOutside(size: nat, last: nat, now: nat, s: nat)
    requires last <= now && (s < last / 1000 || s > now / 1000)
    ensures Share(size, last, now, s) == 0
  {
  }

  /** The window sum after one more sample. */
  lemma {:induction false} WindowSnoc(start: nat, run: seq<Sample>, x: Sample, lo: nat, hi: nat)
    ensures WindowBytes(start, run + [x], lo, hi) == WindowBytes(start, run, lo, hi)
              + SharesUpTo(x.size, LastTime(start, run), Max(x.clock, LastTime(start, run)), lo, hi)
    decreases hi
  {
    assert (run + [x])[..|run|] == run;
    if lo < hi {
      WindowSnoc(start, run, x, lo, hi - 1);
    }
  }

  /** Shares outside the interval of the sample add nothing. */
  lemma {:induction false} SharesTrim(size: nat, last: nat, now: nat, hi: nat)
    requires last <= now
    ensures hi <= last / 1000 ==> SharesUpTo(size, last, now, 0, hi) == 0
    ensures last / 1000 < hi ==> SharesUpTo(size, last, now, 0, hi) == SharesUpTo(size, last, now, last / 1000, hi)
    decreases hi
  {
    if hi > 0 {
      SharesTrim(size, last, now, hi - 1);
      if hi - 1 < last / 1000 {
        ShareOutside(size, last, now, hi - 1);
      }
    }
  }

  /** No byte of a run belongs to a second after its latest clock reading. */
  lemma {:induction false} NoBytesAhead(start: nat, run: seq<Sample>, s: nat)
    requires s > LastTime(start, run) / 1000
    ensures Bytes(start, run, s) == 0
  {
    if run != [] {
      var prev, last := run[..|run| - 1], LastTime(start, run[..|run| - 1]);
      NoBytesAhead(start, prev, s);
      ShareOutside(run[|run| - 1].size, last, LastTime(start, run), s);
    }
  }

  lemma {:induction false} WindowAhead(start: nat, run: seq<Sample>, hi: nat)
    requires hi > LastTime(start, run) / 1000
    ensures WindowBytes(start, run, 0, hi) == WindowBytes(start, run, 0, LastTime(start, run) / 1000 + 1)
    decreases hi
  {
    if hi > LastTime(start, run) / 1000 + 1 {
      NoBytesAhead(start, run, hi - 1);
      WindowAhead(start, run, hi - 1);
    }
  }

  /**
   Rounding loss over a whole run: all seconds together hold at most the bytes reported, and at most one byte less
   for each second from that of the start to that of the latest clock reading, but one.
   */
  lemma {:induction false} RoundingLoss(start: nat, run: seq<Sample>)
    ensures var now := LastTime(start, run);
            var held := WindowBytes(start, run, 0, now / 1000 + 1);
            held <= TotalSize(run) < held + Segments(start, now)
  {
    var now := LastTime(start, run);
    if run == [] {
      EmptyWindow(start, now / 1000 + 1);
    } else {
      var prev, x := run[..|run| - 1], run[|run| - 1];
      var last := LastTime(start, prev);
      RoundingLoss(start, prev);
      assert run == prev + [x];
      WindowSnoc(start, prev, x, 0, now / 1000 + 1);
      WindowAhead(start, prev, now / 1000 + 1);
      SharesTrim(x.size, last, now, now / 1000 + 1);
      SampleLoss(x.size, last, now);
      SegmentsAdd(start, last, now);
    }
  }

  /** Nothing is left of a run in a window that begins after its latest clock reading. */
  lemma {:induction false} NothingAfterRun(start: nat, run: seq<Sample>, lo: nat, hi: nat)
    requires LastTime(start, run) / 1000 < lo
    ensures WindowBytes(start, run, lo, hi) == 0
    decreases hi
  {
    if lo < hi {
      NoBytesAhead(start, run, hi - 1);
      NothingAfterRun(start, run, lo, hi - 1);
    }
  }

  lemma {:induction false} EmptyWindow(start: nat, hi: nat)
    ensures WindowBytes(start, [], 0, hi) == 0
  {
    if hi > 0 {
      EmptyWindow(start, hi - 1);
    }
  }
}
