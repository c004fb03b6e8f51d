/** Runs that show the extreme cases of the dispatch queues: three timeouts at once, and a timeout whose
    oldest task has not waited that long. */
module DsqExamples {
  import opened DsqModel
  import opened DsqRuns
  import opened DsqMachine

  const EMPTY := Queue([], 0, 10, false)
  const NORMAL := Attr(false, 0, false, false, TaskClass.Normal, 0)
  const FOREGROUND := NORMAL.(cls := Foreground)
  const BACKGROUND := NORMAL.(cls := Background)

  function Queues(q6: Queue, q8: Queue, q9: Queue): seq<Queue> {
    [EMPTY, EMPTY, EMPTY, EMPTY, EMPTY, EMPTY, q6, EMPTY, q8, q9, EMPTY]
  }

  // One CPU; tasks 0, 1 and 4 are of class normal, 2 foreground, 3 background; every deadline is 9 jiffies.
  function Layer(q6: Queue, q8: Queue, q9: Queue, on: seq<bool>, lastScan: int): Dsq {
    Dsq(true, true, Queues(q6, q8, q9), on, [NORMAL, NORMAL, FOREGROUND, BACKGROUND, NORMAL], [lastScan],
        [9, 9, 9, 9, 9, 9, 9, 9, 9, 9, 9])
  }

  const START := State(Layer(EMPTY, EMPTY, EMPTY, [false, false, false, false, false], 10),
                       Notes(0, [0, 0, 0, 0, 0], [0, 0, 0, 0, 0, 0, 0, 0, 0, 0, 0]), [0], {}, 10)

  // The CPU switches to next while the task that was running stays runnable.
  function Hook(next: nat, time: int): Step { Schedule(0, next, true, true, next, time) }

  predicate Sized(s: State) {
    && |s.d.queues| == 11 == |s.d.limit| && |s.d.on| == 5 == |s.d.attr| && |s.d.lastScan| == 1 == |s.curr|
    && |s.notes.stamp| == 5 && |s.notes.since| == 11 && s.idle == {} && WellFormed(s.d)
  }

  lemma StartIsInitial()
    ensures Initial(START) && Sized(START)
  {
  }

  lemma {:induction false} RunOn(s: State, run: seq<Step>, a: Step)
    requires Valid(s, run) && Enabled(After(s, run), a)
    ensures Valid(s, run + [a]) && After(s, run + [a]) == Next(After(s, run), a)
    decreases |run|
  {
    if run == [] {
      assert (run + [a])[1..] == [];
    } else {
      assert (run + [a])[1..] == run[1..] + [a];
      RunOn(Next(s, run[0]), run[1..], a);
    }
  }

  /** One hook on such a machine: enabled, and again such a machine. */
  lemma HookStep(s: State, next: nat, time: int)
    requires Sized(s) && next < 5 && s.curr[0] < 5 && s.now <= time
    ensures Enabled(s, Hook(next, time)) && Sized(Next(s, Hook(next, time)))
    ensures Next(s, Hook(next, time)).curr == [next] && Next(s, Hook(next, time)).now == time
    ensures Next(s, Hook(next, time)).d == AfterSchedule(s.d, 0, s.curr[0], next, {}, true, true, next, time)
  {
    var a := Hook(next, time);
    HookForm(s, a);
    HookNotes(s, a);
  }

  lemma HookNotes(s: State, a: Step)
    requires Enabled(s, a) && a.Schedule?
    ensures |Next(s, a).notes.stamp| == |s.notes.stamp| && |Next(s, a).notes.since| == |s.notes.since|
  {
  }

  // A switch too soon after the last scan to scan again: prev is queued, next taken off its queue.
  lemma SwitchWithoutScan(d: Dsq, prev: nat, next: nat, time: int)
    requires WellFormed(d) && d.enable && d.stats && |d.lastScan| == 1 && prev < |d.on| && next < |d.on| && prev != next
    requires !d.on[prev] && !d.on[next] && Home(d, prev) < |d.queues| && time <= d.lastScan[0] + SCAN_INTERVAL
    ensures AfterSchedule(d, 0, prev, next, {}, true, true, next, time) == Enqueue(d, Home(d, prev), prev, time)
  {
  }

  lemma QueuesUpdate(q6: Queue, q8: Queue, q9: Queue, k: Queue)
    ensures Queues(q6, q8, q9)[6 := k] == Queues(k, q8, q9)
    ensures Queues(q6, q8, q9)[8 := k] == Queues(q6, k, q9)
    ensures Queues(q6, q8, q9)[9 := k] == Queues(q6, q8, k)
  {
  }

  // Task p is put on queue q, which becomes k.
  lemma Enqueued(d: Dsq, q: nat, p: nat, time: int, q6: Queue, q8: Queue, q9: Queue, on: seq<bool>, k: Queue)
    requires |d.queues| == 11 && |on| == |d.on| == 5 && p < 5 && q in {6, 8, 9}
    requires d == Layer(q6, q8, q9, d.on, 10) && on == d.on[p := true]
    requires var was := d.queues[q];
             && k.fifo == was.fifo + [p] && k.nr == was.nr + 1 && k.isTimeout == was.isTimeout
             && k.lastConsumeAt == if was.fifo == [] then time else was.lastConsumeAt
    ensures Enqueue(d, q, p, time)
         == Layer(if q == 6 then k else q6, if q == 8 then k else q8, if q == 9 then k else q9, on, 10)
  {
    QueuesUpdate(q6, q8, q9, k);
  }

  const ONE := Queue([0], 1, 10, false)
  const TWO := Queue([0, 1], 2, 10, false)
  const ONE_FOREGROUND := Queue([2], 1, 13, false)
  const ONE_BACKGROUND := Queue([3], 1, 13, false)

  const TWO_HOOKS := [Hook(1, 10), Hook(2, 12)]

  /** Task 0 is queued at 10, task 1 at 12. */
  lemma TwoQueued()
    ensures Valid(START, [Hook(1, 10)]) && |After(START, [Hook(1, 10)]).d.on| == 5 && !After(START, [Hook(1, 10)]).d.on[1]
    ensures Valid(START, TWO_HOOKS) && Sized(After(START, TWO_HOOKS))
    ensures var s := After(START, TWO_HOOKS);
            s.d == Layer(EMPTY, TWO, EMPTY, [true, true, false, false, false], 10) && s.curr == [2] && s.now == 12
  {
    hide AfterSchedule, Enqueue, Valid, After;
    StartIsInitial();
    Nothing(START);
    HookStep(START, 1, 10);
    SwitchWithoutScan(START.d, 0, 1, 10);
    Enqueued(START.d, 8, 0, 10, EMPTY, EMPTY, EMPTY, [true, false, false, false, false], ONE);
    RunOn(START, [], Hook(1, 10));
    assert [] + [Hook(1, 10)] == [Hook(1, 10)];
    var s1 := After(START, [Hook(1, 10)]);
    HookStep(s1, 2, 12);
    SwitchWithoutScan(s1.d, 1, 2, 12);
    Enqueued(s1.d, 8, 1, 12, EMPTY, ONE, EMPTY, [true, true, false, false, false], TWO);
    RunOn(START, [Hook(1, 10)], Hook(2, 12));
    assert [Hook(1, 10)] + [Hook(2, 12)] == TWO_HOOKS;
  }

  lemma Nothing(s: State)
    ensures Valid(s, []) && After(s, []) == s
  {
  }

  /** At 13 tasks 2 and 3 follow. */
  lemma FourQueued()
    ensures Valid(START, TWO_HOOKS + [Hook(3, 13)] + [Hook(4, 13)])
    ensures var s := After(START, TWO_HOOKS + [Hook(3, 13)] + [Hook(4, 13)]);
            && Sized(s) && s.d == Layer(ONE_FOREGROUND, TWO, ONE_BACKGROUND, [true, true, true, true, false], 10)
            && s.curr == [4] && s.now == 13
  {
    hide AfterSchedule, Enqueue, Valid, After;
    TwoQueued();
    var s2 := After(START, TWO_HOOKS);
    HookStep(s2, 3, 13);
    SwitchWithoutScan(s2.d, 2, 3, 13);
    Enqueued(s2.d, 6, 2, 13, EMPTY, TWO, EMPTY, [true, true, true, false, false], ONE_FOREGROUND);
    RunOn(START, TWO_HOOKS, Hook(3, 13));
    var s3 := After(START, TWO_HOOKS + [Hook(3, 13)]);
    HookStep(s3, 4, 13);
    SwitchWithoutScan(s3.d, 3, 4, 13);
    Enqueued(s3.d, 9, 3, 13, ONE_FOREGROUND, TWO, EMPTY, [true, true, true, true, false], ONE_BACKGROUND);
    RunOn(START, TWO_HOOKS + [Hook(3, 13)], Hook(4, 13));
  }

  lemma {:induction false} HooksKeepClasses(s: State, run: seq<Step>)
    requires Valid(s, run) && forall i :: 0 <= i < |run| ==> run[i].Schedule?
    ensures KeepsClasses(s, run)
    decreases |run|
  {
    if run != [] {
      HooksKeepClasses(Next(s, run[0]), run[1..]);
    }
  }

  lemma ScanOnly(d: Dsq, curr: nat, time: int)
    requires WellFormed(d) && d.enable && d.stats && |d.lastScan| == 1 && curr < |d.on|
    ensures AfterSchedule(d, 0, curr, curr, {}, true, true, curr, time) == ThrottledScan(d, 0, time)
  {
  }

  /** The largest urgency is 768, and this run reaches it: all three queues that can time out do so at once,
      with no class ever changing. */
  lemma LargestUrgency() returns (run: seq<Step>)
    ensures Initial(START) && Valid(START, run) && KeepsClasses(START, run)
    ensures |After(START, run).d.queues| >= GLOBAL_DSQS && Urgency(After(START, run).d) == 768
  {
    hide AfterSchedule, After, Valid, Urgency, ThrottledScan;
    StartIsInitial();
    FourQueued();
    run := TWO_HOOKS + [Hook(3, 13)] + [Hook(4, 13)];
    var s4 := After(START, run);
    HookStep(s4, 4, 23);
    ScanOnly(s4.d, 4, 23);
    RunOn(START, run, Hook(4, 23));
    run := run + [Hook(4, 23)];
    HooksKeepClasses(START, run);
    AllExpire(s4.d);
  }

  lemma AllExpire(d: Dsq)
    requires d == Layer(ONE_FOREGROUND, TWO, ONE_BACKGROUND, d.on, 10) && WellFormed(d)
    ensures |ThrottledScan(d, 0, 23).queues| == 11 && Urgency(ThrottledScan(d, 0, 23)) == 768
  {
    var r := ThrottledScan(d, 0, 23);
    assert r.enable;
    assert r.queues == Queues(ONE_FOREGROUND.(isTimeout := true), TWO.(isTimeout := true),
                              ONE_BACKGROUND.(isTimeout := true));
    ThreeTimeouts(r.queues);
  }

  lemma TimeoutsStep(queues: seq<Queue>, k: nat)
    requires k < |queues|
    ensures Timeouts(queues[..k + 1]) == Timeouts(queues[..k]) + if queues[k].isTimeout then 1 else 0
  {
    assert queues[..k + 1][..k] == queues[..k];
  }

  lemma ThreeTimeouts(queues: seq<Queue>)
    requires |queues| == 11 && forall q :: 0 <= q < GLOBAL_DSQS ==> (queues[q].isTimeout <==> q in {6, 8, 9})
    ensures Timeouts(queues[..GLOBAL_DSQS]) == 3
  {
    forall k: nat | k < GLOBAL_DSQS
      ensures Timeouts(queues[..k + 1]) == Timeouts(queues[..k]) + if k in {6, 8, 9} then 1 else 0
    {
      TimeoutsStep(queues, k);
    }
    hide Timeouts;
    assert Timeouts(queues[..0]) == 0 by { Timeouts0(queues); }
    assert Timeouts(queues[..1]) == Timeouts(queues[..2]) == Timeouts(queues[..3]) == Timeouts(queues[..4]) == 0;
    assert Timeouts(queues[..5]) == Timeouts(queues[..6]) == 0;
    assert Timeouts(queues[..7]) == Timeouts(queues[..8]) == 1;
    assert Timeouts(queues[..9]) == 2;
  }

  lemma Timeouts0(queues: seq<Queue>)
    ensures Timeouts(queues[..0]) == 0
  {
  }

  /** last_consume_at is not when a task was last consumed, and a timeout is not about the age of the head: task 0
      is consumed at 20, which leaves the field at 10, and the queue is marked although its only task was
      queued at 12 and the deadline is 9. */
  lemma TimeoutOfYoungHead()
    ensures Initial(START) && Valid(START, TWO_HOOKS) && Valid(START, TWO_HOOKS + [Hook(0, 20)])
    ensures Valid(START, [Hook(1, 10)]) && |After(START, [Hook(1, 10)]).d.on| == 5 && !After(START, [Hook(1, 10)]).d.on[1]
    ensures var d := After(START, TWO_HOOKS).d;
            |d.queues| == |d.limit| == 11 && d.queues[8].fifo == [0, 1] && d.limit[8] == 9
    ensures var d := After(START, TWO_HOOKS + [Hook(0, 20)]).d;
            |d.queues| == 11 && d.queues[8] == Queue([1], 1, 10, true)
  {
    hide AfterSchedule, After, Valid, ThrottledScan;
    StartIsInitial();
    TwoQueued();
    var s2 := After(START, TWO_HOOKS);
    HookStep(s2, 0, 20);
    RunOn(START, TWO_HOOKS, Hook(0, 20));
    ConsumeAndScan(s2.d);
  }

  lemma ConsumeAndScan(d: Dsq)
    requires WellFormed(d) && d == Layer(EMPTY, TWO, EMPTY, [true, true, false, false, false], 10)
    ensures var r := AfterSchedule(d, 0, 2, 0, {}, true, true, 0, 20);
            |r.queues| == 11 && r.queues[8] == Queue([1], 1, 10, true)
  {
    var d1 := Layer(Queue([2], 1, 20, false), TWO, EMPTY, [true, true, true, false, false], 10);
    Enqueued(d, 6, 2, 20, EMPTY, TWO, EMPTY, [true, true, true, false, false], Queue([2], 1, 20, false));
    assert PrevLeaves(d, 2, {}, true, true, 0, 20) == d1;
    hide Enqueue, PrevLeaves, Dequeue, ThrottledScan;
    KeepsForm(d, 2, 0, {}, true, true, 0, 20);
    Consumed(d1);
    ScanMarks(Dequeue(d1, 8, 0, 20));
  }

  lemma Consumed(d: Dsq)
    requires d == Layer(Queue([2], 1, 20, false), TWO, EMPTY, [true, true, true, false, false], 10)
    ensures DequeueTask(d, 0, 20) == Dequeue(d, 8, 0, 20)
    ensures var r := Dequeue(d, 8, 0, 20);
            r.enable && r.lastScan == [10] && |r.queues| == 11 && r.limit == d.limit && r.queues[8] == Queue([1], 1, 10, false)
  {
    assert [0, 1][..1] == [0] && [0][..0] == [];
    assert Without([0], 0) == [];
    assert Without([0, 1], 0) == [1];
  }

  lemma ScanMarks(d: Dsq)
    requires WellFormed(d) && d.enable && d.lastScan == [10] && |d.queues| == 11 && d.limit[8] == 9
    requires d.queues[8] == Queue([1], 1, 10, false)
    ensures |ThrottledScan(d, 0, 20).queues| == 11 && ThrottledScan(d, 0, 20).queues[8] == Queue([1], 1, 10, true)
  {
  }
}
