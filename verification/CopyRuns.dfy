/**
 Whole runs of a bidirectional copy: any inputs, any behaviour of the readers and writers, any clock readings.
 */
module CopyRuns {
  import opened Common
  import opened CopyFlows
  import opened CopyHelds
  import opened CopyBidirectional

  /**
   What a run is given: all that the two peers have to give, the time of the start, the timeout, and for each poll the
   time it is made at and the time at which it resets the timer, if it does.
   */
  datatype Course = Course(a: seq<byte>, b: seq<byte>, start: nat, timeout: nat, clock: seq<(nat, nat)>)

  /** At this moment each direction has sent a prefix of what it received, which is a prefix of its input. */
  ghost predicate Fed(c: Course, m: Moment) {
    && Follows(m.ab, c.a) && m.ab.sent <= m.ab.received
    && Follows(m.ba, c.b) && m.ba.sent <= m.ba.received
  }

  /**
   The time of the last progress.  `h` holds the moments of a run, one before the first poll and one after each poll.
   */
  ghost function Since(c: Course, h: seq<Moment>): nat
    requires 0 < |h| <= |c.clock| + 1
  {
    var k := |h| - 1;
    if k == 0 then c.start
    else if Total(h[k]) > Total(h[k - 1]) then c.clock[k - 1].1
    else Since(c, h[..k])
  }

  /** How many polls made progress. */
  ghost function Resets(h: seq<Moment>): nat {
    if |h| <= 1 then 0
    else Resets(h[..|h| - 1]) + if Total(h[|h| - 1]) > Total(h[|h| - 2]) then 1 else 0
  }

  /** The next poll comes before the deadline. */
  ghost predicate OnTime(c: Course, h: seq<Moment>) {
    0 < |h| <= |c.clock| && c.clock[|h| - 1].0 < Since(c, h) + c.timeout
  }

  /** Every poll came before the deadline, and ended in waiting. */
  ghost predicate Waits(c: Course, h: seq<Moment>) {
    0 < |h| <= |c.clock| + 1
    && if |h| == 1 then h[0] == BEGIN
       else
         var k := |h| - 1;
         Waits(c, h[..k]) && OnTime(c, h[..k]) && Waited(h[k - 1], h[k]) && Fed(c, h[k])
  }

  lemma RunBegins(c: Course)
    ensures Waits(c, [BEGIN]) && Fed(c, BEGIN) && Since(c, [BEGIN]) == c.start
  {
  }

  lemma {:induction false} WaitsOnceMore(c: Course, h: seq<Moment>, m: Moment)
    requires 0 < |h| <= |c.clock|
    ensures Waits(c, h) && OnTime(c, h) && Waited(h[|h| - 1], m) && Fed(c, m) ==> Waits(c, h + [m])
    ensures Since(c, h + [m]) == if Total(m) > Total(h[|h| - 1]) then c.clock[|h| - 1].1 else Since(c, h)
  {
    assert (h + [m])[..|h|] == h;
  }

  /** The polls of the run `h` ended in waiting, and then the copy answered `r`, leaving its flows at `end`. */
  ghost predicate Answers(c: Course, r: TaskPoll, h: seq<Moment>, end: Moment) {
    Waits(c, h) && Fed(c, end) && var last := h[|h| - 1];
    match r
    case Waiting => |h| == |c.clock| + 1 && end == last
    case TimedOut => |h| <= |c.clock| && !OnTime(c, h) && end == last
    case InvalidInput => false
    case IoError => OnTime(c, h) && Outcome(r, last, end)
    case Copied(_, _) => OnTime(c, h) && Outcome(r, last, end)
  }

  lemma {:induction false} ResetsMakeProgress(c: Course, h: seq<Moment>)
    requires h != []
    ensures Waits(c, h) ==> Resets(h) <= Total(h[|h| - 1])
  {
    if |h| > 1 && Waits(c, h) {
      ResetsMakeProgress(c, h[..|h| - 1]);
    }
  }

  lemma ResetsOnceMore(h: seq<Moment>, m: Moment)
    requires h != []
    ensures Resets(h + [m]) == Resets(h) + if Total(m) > Total(h[|h| - 1]) then 1 else 0
  {
    assert (h + [m])[..|h|] == h;
  }

  lemma AnswersAdvance(c: Course, r: TaskPoll, h: seq<Moment>, end: Moment)
    requires Answers(c, r, h, end)
    ensures end == h[|h| - 1] || Advanced(h[|h| - 1], end)
  {
  }

  /** The polls that reset the timer, up to and with the answer, are bounded by the progress made. */
  lemma {:induction false} ResetsAreBounded(c: Course, r: TaskPoll, h: seq<Moment>, end: Moment)
    requires Answers(c, r, h, end)
    ensures Resets(h + [end]) <= Total(end)
  {
    ResetsMakeProgress(c, h);
    ResetsOnceMore(h, end);
    AnswersAdvance(c, r, h, end);
  }

  /** Each self wake-up has been earned by a whole budget of counted steps. */
  ghost predicate Earned(m: Moment) {
    && m.ab.lawful && 128 * m.ab.wakes <= Spent(m.ab)
    && m.ba.lawful && 128 * m.ba.wakes <= Spent(m.ba)
  }

  lemma AdvancedEarns(m: Moment, m': Moment)
    requires Earned(m) && Advanced(m, m')
    ensures Earned(m')
  {
  }

  lemma {:induction false} WaitsEarn(c: Course, h: seq<Moment>)
    requires h != []
    ensures Waits(c, h) ==> Earned(h[|h| - 1])
  {
    if |h| > 1 && Waits(c, h) {
      WaitsEarn(c, h[..|h| - 1]);
      AdvancedEarns(h[|h| - 2], h[|h| - 1]);
    }
  }

  /** A whole run never spins: it is lawful to its end, and all its self wake-ups have been earned. */
  lemma {:induction false} AnswersEarn(c: Course, r: TaskPoll, h: seq<Moment>, end: Moment)
    requires Answers(c, r, h, end)
    ensures Earned(end)
  {
    WaitsEarn(c, h);
    AnswersAdvance(c, r, h, end);
    if end != h[|h| - 1] {
      AdvancedEarns(h[|h| - 1], end);
    }
  }

  /** The work that moving the bytes of a flow allows. */
  function Work(f: Flow): nat {
    |f.received| + 2 * |f.sent|
  }

  /** What the protocol makes of two traces. */
  ghost function MomentOf(aToB: seq<Event>, aToBBufSize: nat, bToA: seq<Event>, bToABufSize: nat): Moment {
    Moment(FlowOf(aToB, aToBBufSize), FlowOf(bToA, bToABufSize))
  }

  lemma {:induction false} WorkIsBounded(aToB: seq<Event>, aToBBufSize: nat, bToA: seq<Event>, bToABufSize: nat)
    requires Earned(MomentOf(aToB, aToBBufSize, bToA, bToABufSize))
    ensures var m := MomentOf(aToB, aToBBufSize, bToA, bToABufSize);
            && Total(m) <= Work(m.ab) + Work(m.ba) + 4
            && 128 * m.ab.wakes <= Work(m.ab) + 1
            && 128 * m.ba.wakes <= Work(m.ba) + 1
  {
    ProgressIsPaidFor(aToB, aToBBufSize);
    ProgressIsPaidFor(bToA, bToABufSize);
    SpentIsPaidFor(aToB, aToBBufSize);
    SpentIsPaidFor(bToA, bToABufSize);
  }

  /** The task runs the course. */
  ghost predicate Runs(task: CopyTask, c: Course)
    reads {}
  {
    task.ab.link.input == c.a && task.ba.link.input == c.b && task.timeout == c.timeout
  }

  lemma {:induction false} NowIsFed(task: CopyTask, c: Course)
    requires Runs(task, c) && task.ab.link.Valid() && task.ba.link.Valid()
    requires task.Now().ab.lawful && task.Now().ba.lawful
    ensures Fed(c, task.Now())
  {
    LawfulIsConsistent(task.ab.link.trace, task.ab.link.size);
    LawfulIsConsistent(task.ba.link.trace, task.ba.link.size);
  }

  /** The copy has waited in the first `i` polls of its course. */
  ghost predicate Driven(task: CopyTask, c: Course, i: nat, h: seq<Moment>)
    reads task, task.ab.Repr(), task.ba.Repr()
  {
    && task.Valid() && Runs(task, c) && i <= |c.clock|
    && |h| == i + 1 && h[i] == task.Now() && Fed(c, h[i])
    && Waits(c, h) && task.deadline == Since(c, h) + c.timeout
  }

  /** One more poll of a copy that has waited so far. */
  method PollOnce(task: CopyTask, c: Course, i: nat, ghost h: seq<Moment>) returns (r: TaskPoll, ghost h': seq<Moment>)
    requires Driven(task, c, i, h) && i < |c.clock|
    modifies task, task.ab.Repr(), task.ba.Repr()
    ensures task.ab.link.Valid() && task.ba.link.Valid()
    ensures if r == Waiting then Driven(task, c, i + 1, h') else Answers(c, r, h', task.Now())
  {
    r := task.Poll(c.clock[i].0, c.clock[i].1);
    h' := h;
    if r != TimedOut {
      NowIsFed(task, c);
    }
    if r == Waiting {
      ghost var m := task.Now();
      WaitsOnceMore(c, h, m);
      h' := h + [m];
      assert Waits(c, h');
    }
  }

  /** Polls the copy for each pair of clock readings until it answers. */
  method DriveTask(task: CopyTask, c: Course) returns (r: TaskPoll, ghost h: seq<Moment>)
    requires task.Valid() && Runs(task, c) && task.Now() == BEGIN && task.deadline == c.start + c.timeout
    modifies task, task.ab.Repr(), task.ba.Repr()
    ensures task.ab.link.Valid() && task.ba.link.Valid()
    ensures Answers(c, r, h, task.Now())
  {
    r, h := Waiting, [BEGIN];
    RunBegins(c);
    for i := 0 to |c.clock|
      invariant r == Waiting && Driven(task, c, i, h)
    {
      r, h := PollOnce(task, c, i, h);
      if r != Waiting {
        return;
      }
    }
  }

  /** A run of a copy whose arguments are valid. */
  method CopyBoth(c: Course, aToBBufSize: nat, bToABufSize: nat)
    returns (r: TaskPoll, aToB: seq<Event>, bToA: seq<Event>, ghost h: seq<Moment>)
    requires aToBBufSize > 0 && bToABufSize > 0
    ensures Answers(c, r, h, MomentOf(aToB, aToBBufSize, bToA, bToABufSize))
  {
    var ab := new Direction(aToBBufSize, c.a);
    var ba := new Direction(bToABufSize, c.b);
    var task := new CopyTask(ab, ba, c.timeout, c.start);
    r, h := DriveTask(task, c);
    aToB, bToA := ab.link.trace, ba.link.trace;
  }

  /**
   A whole copy: one poll for each pair of clock readings, until it answers.  `h` holds the moments of the run, and the
   two traces are what readers, writers and wakers did in it.
   */
  method CopyBidirectionalWithTimeoutAndSizes(c: Course, aToBBufSize: nat, bToABufSize: nat)
    returns (r: TaskPoll, aToB: seq<Event>, bToA: seq<Event>, ghost h: seq<Moment>)
    ensures c.timeout == 0 ==> r == TimedOut && aToB == bToA == []
    ensures c.timeout > 0 && (aToBBufSize == 0 || bToABufSize == 0) ==> r == InvalidInput && aToB == bToA == []
    ensures c.timeout > 0 && aToBBufSize > 0 && bToABufSize > 0 ==>
              var end := MomentOf(aToB, aToBBufSize, bToA, bToABufSize);
              && Answers(c, r, h, end) && end.ab.lawful && end.ba.lawful
              && (r.Copied? ==> end.ab.sent == c.a && r.aToB == |c.a| && end.ba.sent == c.b && r.bToA == |c.b|)
              && Resets(h + [end]) <= Work(end.ab) + Work(end.ba) + 4
              && 128 * end.ab.wakes <= Work(end.ab) + 1
              && 128 * end.ba.wakes <= Work(end.ba) + 1
  {
    if c.timeout == 0 {
      return TimedOut, [], [], [];
    }
    if aToBBufSize == 0 || bToABufSize == 0 {
      return InvalidInput, [], [], [];
    }
    r, aToB, bToA, h := CopyBoth(c, aToBBufSize, bToABufSize);
    ghost var end := MomentOf(aToB, aToBBufSize, bToA, bToABufSize);
    AnswersEarn(c, r, h, end);
    ResetsAreBounded(c, r, h, end);
    WorkIsBounded(aToB, aToBBufSize, bToA, bToABufSize);
  }
}
