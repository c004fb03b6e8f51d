/**
 Runs of the dispatch-queue layer: which facts hold after any sequence of schedule hooks, attribute
 changes, switch flips and syncs, and which need classes to be stable or the switches to stay on.
 */
module DsqMachine {
  import opened DsqModel
  import opened DsqRuns

  datatype State = State(d: Dsq, notes: Notes, curr: seq<nat>, idle: set<nat>, now: int)

  datatype Step =
    | Schedule(cpu: nat, next: nat, prevOnRq: bool, prevHere: bool, rqCurr: nat, time: int)
    | SetAttr(task: nat, attr: Attr)
    | SetStats(on: bool)
    | SetEnable(on: bool)
    | CallSync(time: int)

  predicate Enabled(s: State, a: Step) {
    && WellFormed(s.d) && |s.curr| == |s.d.lastScan|
    && |s.notes.stamp| == |s.d.on| && |s.notes.since| == |s.d.queues|
    && match a
       case Schedule(c, next, _, _, _, time) =>
         && c < |s.curr| && s.curr[c] < |s.d.on| && next < |s.d.on| && s.now <= time
         && forall e :: 0 <= e < |s.curr| && e != c ==> s.curr[e] != next
       case SetAttr(p, _) => p < |s.d.on|
       case CallSync(time) => s.now <= time
       case _ => true
  }

  function Next(s: State, a: Step): State
    requires Enabled(s, a)
  {
    match a
    case Schedule(c, next, onRq, here, rqCurr, time) =>
      var prev := s.curr[c];
      s.(d := AfterSchedule(s.d, c, prev, next, s.idle, onRq, here, rqCurr, time),
         notes := NotesAfter(s.d, s.notes, c, prev, next, s.idle, onRq, here, rqCurr, time),
         curr := s.curr[c := next],
         now := time)
    case SetAttr(p, attr) => s.(d := s.d.(attr := s.d.attr[p := attr]))
    case SetStats(b) => s.(d := s.d.(stats := b))
    case SetEnable(b) => s.(d := s.d.(enable := b))
    case CallSync(time) => s.(d := Sync(s.d), notes := Observe(s.notes, s.d, Sync(s.d), time), now := time)
  }

  // What the observer notes over one schedule hook: one look after each locked body.
  function NotesAfter(d: Dsq, n: Notes, cpu: nat, prev: nat, next: nat, idle: set<nat>, onRq: bool, here: bool,
                      rqCurr: nat, now: int): Notes
    requires WellFormed(d) && cpu < |d.lastScan| && prev < |d.on| && next < |d.on|
    requires |n.stamp| == |d.on| && |n.since| == |d.queues|
  {
    if !d.stats || !d.enable then n
    else
      KeepsForm(d, prev, next, idle, onRq, here, rqCurr, now);
      var d1 := if prev == next then d else PrevLeaves(d, prev, idle, onRq, here, rqCurr, now);
      var d2 := Switched(d, prev, next, idle, onRq, here, rqCurr, now);
      var n1 := Observe(n, d, d1, now);
      Observe(Observe(n1, d1, d2, now), d2, ThrottledScan(d2, cpu, now), now)
  }

  predicate Valid(s: State, run: seq<Step>)
    decreases |run|
  {
    run == [] || (Enabled(s, run[0]) && Valid(Next(s, run[0]), run[1..]))
  }

  function After(s: State, run: seq<Step>): State
    requires Valid(s, run)
    decreases |run|
  {
    if run == [] then s else After(Next(s, run[0]), run[1..])
  }

  // lse_dsq_init, with anything running
  predicate Initial(s: State) {
    && WellFormed(s.d) && |s.curr| == |s.d.lastScan|
    && |s.notes.stamp| == |s.d.on| && |s.notes.since| == |s.d.queues|
    && (forall q :: 0 <= q < |s.d.queues| ==> s.d.queues[q] == Queue([], 0, s.now, false))
    && (forall p :: 0 <= p < |s.d.on| ==> !s.d.on[p])
  }

  predicate Inv(s: State) {
    Base(s.d, s.notes) && Counted(s.d) && Timed(s.d, s.notes, s.now)
  }

  predicate Stable(s: State) {
    Inv(s) && AtHome(s.d) && Overdue(s.d, s.notes, s.now)
  }

  lemma InitialInv(s: State)
    requires Initial(s)
    ensures Stable(s)
  {
    SumsZero(s.d.queues);
    CountOnNone(s.d.on);
  }

  // ----- one step -----

  // The invariants together, for one locked body.
  predicate Good(d: Dsq, n: Notes, now: int, stable: bool) {
    && Base(d, n) && Counted(d) && Timed(d, n, now)
    && (stable ==> AtHome(d) && Overdue(d, n, now))
  }

  lemma Later(d: Dsq, n: Notes, now: int, time: int, stable: bool)
    requires Good(d, n, now, stable) && now <= time
    ensures Good(d, n, time, stable)
  {
  }

  lemma EnqueueGood(d: Dsq, n: Notes, p: nat, onRq: bool, isCurr: bool, now: int, stable: bool)
    requires Good(d, n, now, stable) && p < |d.on|
    ensures var d' := EnqueueTask(d, p, onRq, isCurr, now);
            |d'.on| == |d.on| && |d'.queues| == |d.queues| && Good(d', Observe(n, d, d', now), now, stable)
  {
    hide Base, Counted, Timed, Overdue;
    assert |n.stamp| == |d.on| && |n.since| == |d.queues| && WellFormed(d) by { NotesFit(d, n); }
    var q := Home(d, p);
    if d.enable && !d.on[p] && onRq && !isCurr && q < |d.queues| {
      EnqueueBase(d, n, q, p, now);
      EnqueueCounted(d, q, p, now);
      EnqueueTimed(d, n, p, now);
      if stable {
        EnqueueAtHome(d, p, now);
      }
    } else {
      UnchangedGood(d, n, now, stable);
    }
  }

  lemma NotesFit(d: Dsq, n: Notes)
    requires Base(d, n)
    ensures WellFormed(d) && |n.stamp| == |d.on| && |n.since| == |d.queues|
  {
  }

  lemma UnchangedGood(d: Dsq, n: Notes, now: int, stable: bool)
    requires Good(d, n, now, stable)
    ensures |n.stamp| == |d.on| && |n.since| == |d.queues| && Good(d, Observe(n, d, d, now), now, stable)
  {
    SameListsBase(d, d, n, now);
    assert Observe(n, d, d, now).since == n.since;
  }

  lemma DequeueGood(d: Dsq, n: Notes, p: nat, now: int, stable: bool)
    requires Good(d, n, now, stable) && p < |d.on|
    ensures var d' := DequeueTask(d, p, now);
            |d'.on| == |d.on| && |d'.queues| == |d.queues| && Good(d', Observe(n, d, d', now), now, stable)
  {
    hide Base, Counted, Timed, Overdue;
    NotesFit(d, n);
    var q := Home(d, p);
    if d.enable && d.on[p] && q < |d.queues| {
      DequeueBase(d, n, q, p, now);
      DequeueCounted(d, n, q, p, now);
      DequeueTimed(d, n, q, p, now);
      if stable {
        DequeueAtHome(d, n, p, now);
      }
    } else {
      UnchangedGood(d, n, now, stable);
    }
  }

  lemma ScanGood(d: Dsq, n: Notes, cpu: nat, now: int, stable: bool)
    requires Good(d, n, now, stable) && cpu < |d.lastScan|
    ensures var d' := ThrottledScan(d, cpu, now);
            |d'.on| == |d.on| && |d'.queues| == |d.queues| && Good(d', Observe(n, d, d', now), now, stable)
  {
    var d' := ThrottledScan(d, cpu, now);
    ScanTimed(d, n, cpu, now);
    hide Base, Counted, Timed, Overdue, ThrottledScan;
    NotesFit(d, n);
    SameListsBase(d, d', n, now);
    SameListsCounted(d, d');
    assert d'.attr == d.attr by { ScanKeepsAttr(d, cpu, now); }
    NotesFit(d', n);
  }

  lemma ScanKeepsAttr(d: Dsq, cpu: nat, now: int)
    requires WellFormed(d) && cpu < |d.lastScan|
    ensures ThrottledScan(d, cpu, now).attr == d.attr
  {
  }

  lemma ScheduleGood(s: State, a: Step, stable: bool)
    requires Enabled(s, a) && a.Schedule? && Good(s.d, s.notes, s.now, stable)
    ensures Good(Next(s, a).d, Next(s, a).notes, a.time, stable)
  {
    hide Good, Observe, EnqueueTask, DequeueTask, ThrottledScan;
    var d, n, prev := s.d, s.notes, s.curr[a.cpu];
    Later(d, n, s.now, a.time, stable);
    if d.stats && d.enable {
      KeepsForm(d, prev, a.next, s.idle, a.prevOnRq, a.prevHere, a.rqCurr, a.time);
      var d1 := if prev == a.next then d else PrevLeaves(d, prev, s.idle, a.prevOnRq, a.prevHere, a.rqCurr, a.time);
      var d2 := Switched(d, prev, a.next, s.idle, a.prevOnRq, a.prevHere, a.rqCurr, a.time);
      EnqueueGood(d, n, prev, a.prevOnRq, prev == a.rqCurr, a.time, stable);
      UnchangedGood(d, n, a.time, stable);
      var n1 := Observe(n, d, d1, a.time);
      DequeueGood(d1, n1, a.next, a.time, stable);
      UnchangedGood(d1, n1, a.time, stable);
      ScanGood(d2, Observe(n1, d1, d2, a.time), a.cpu, a.time, stable);
    }
  }

  // A task's class changes only while it is not queued.
  predicate KeepsClass(s: State, a: Step)
    requires Enabled(s, a)
  {
    a.SetAttr? && s.d.on[a.task] ==> Classify(a.attr) == Home(s.d, a.task)
  }

  lemma NextGood(s: State, a: Step, stable: bool)
    requires Enabled(s, a) && Good(s.d, s.notes, s.now, stable)
    requires stable ==> KeepsClass(s, a)
    ensures Good(Next(s, a).d, Next(s, a).notes, Next(s, a).now, stable)
  {
    hide Good, Sync;
    match a
    case Schedule(_, _, _, _, _, _) => ScheduleGood(s, a, stable);
    case CallSync(time) => SyncGood(s.d, s.notes, s.now, time, stable);
    case SetAttr(_, _) => AttrGood(s, a, stable);
    case SetStats(b) => SwitchGood(s.d, s.notes, s.now, s.d.enable, b, stable);
    case SetEnable(b) => SwitchGood(s.d, s.notes, s.now, b, s.d.stats, stable);
  }

  lemma SyncGood(d: Dsq, n: Notes, now: int, time: int, stable: bool)
    requires Good(d, n, now, stable) && now <= time
    ensures |n.stamp| == |d.on| == |Sync(d).on| && |n.since| == |d.queues| == |Sync(d).queues|
    ensures Good(Sync(d), Observe(n, d, Sync(d), time), time, stable)
  {
    Later(d, n, now, time, stable);
    SyncBase(d, n, time);
    SyncCounted(d, n);
    SyncTimed(d, n, time);
  }

  lemma SwitchGood(d: Dsq, n: Notes, now: int, enable: bool, stats: bool, stable: bool)
    requires Good(d, n, now, stable)
    ensures Good(d.(enable := enable, stats := stats), n, now, stable)
  {
    SameListsBase(d, d.(enable := enable, stats := stats), n, now);
  }

  lemma AttrGood(s: State, a: Step, stable: bool)
    requires Enabled(s, a) && a.SetAttr? && Good(s.d, s.notes, s.now, stable)
    requires stable ==> KeepsClass(s, a)
    ensures Good(Next(s, a).d, s.notes, s.now, stable)
  {
    hide Observe;
    SameListsBase(s.d, Next(s, a).d, s.notes, s.now);
    if stable {
      AttrKeepsHome(s, a);
    }
  }

  lemma AttrKeepsHome(s: State, a: Step)
    requires Enabled(s, a) && a.SetAttr? && KeepsClass(s, a) && Membership(s.d) && AtHome(s.d)
    ensures WellFormed(Next(s, a).d) && AtHome(Next(s, a).d)
  {
    var d, d' := s.d, Next(s, a).d;
    forall q, i | 0 <= q < |d'.queues| && 0 <= i < |d'.queues[q].fifo|
      ensures Home(d', d'.queues[q].fifo[i]) == q
    {
      var x := d.queues[q].fifo[i];
      assert x in d.queues[q].fifo;
      assert Queued(d, x);
    }
  }

  // ----- runs -----

  predicate KeepsClasses(s: State, run: seq<Step>)
    requires Valid(s, run)
    decreases |run|
  {
    run == [] || (KeepsClass(s, run[0]) && KeepsClasses(Next(s, run[0]), run[1..]))
  }

  lemma {:induction false} RunGood(s: State, run: seq<Step>, stable: bool)
    requires Valid(s, run) && Good(s.d, s.notes, s.now, stable)
    requires stable ==> KeepsClasses(s, run)
    ensures Good(After(s, run).d, After(s, run).notes, After(s, run).now, stable)
    decreases |run|
  {
    hide Good, Next;
    if run != [] {
      NextGood(s, run[0], stable);
      RunGood(Next(s, run[0]), run[1..], stable);
    }
  }

  // p occurs at place i of queue q and nowhere else.
  predicate OnlyAt(d: Dsq, p: nat, q: int, i: int) {
    && 0 <= q < |d.queues| && 0 <= i < |d.queues[q].fifo| && d.queues[q].fifo[i] == p
    && forall r, j :: 0 <= r < |d.queues| && 0 <= j < |d.queues[r].fifo| && d.queues[r].fifo[j] == p ==> r == q && j == i
  }

  /** DSQ membership on every run, whatever classes do: a task's flag is set exactly when the task occurs
      once in exactly one fifo. */
  lemma MembershipOnRuns(s: State, run: seq<Step>, p: nat)
    requires Initial(s) && Valid(s, run) && p < |s.d.on|
    ensures |After(s, run).d.on| == |s.d.on|
    ensures After(s, run).d.on[p] <==> exists q, i :: OnlyAt(After(s, run).d, p, q, i)
    ensures !After(s, run).d.on[p] <==> !Queued(After(s, run).d, p)
  {
    InitialInv(s);
    RunGood(s, run, false);
    RunSizes(s, run);
    OnOnce(After(s, run).d, After(s, run).notes, p);
  }

  lemma OnOnce(d: Dsq, n: Notes, p: nat)
    requires Base(d, n) && p < |d.on|
    ensures d.on[p] <==> exists q, i :: OnlyAt(d, p, q, i)
    ensures d.on[p] <==> Queued(d, p)
  {
    if d.on[p] {
      assert Queued(d, p);
      var q :| 0 <= q < |d.queues| && p in d.queues[q].fifo;
      var i :| 0 <= i < |d.queues[q].fifo| && d.queues[q].fifo[i] == p;
      assert Ordered(d.queues[q].fifo, n.stamp);
      forall r, j | 0 <= r < |d.queues| && 0 <= j < |d.queues[r].fifo| && d.queues[r].fifo[j] == p
        ensures r == q && j == i
      {
        assert p in d.queues[r].fifo;
      }
      assert OnlyAt(d, p, q, i);
    }
  }

  lemma {:induction false} RunSizes(s: State, run: seq<Step>)
    requires Valid(s, run) && |s.curr| == |s.d.lastScan| && WellFormed(s.d)
    ensures var r := After(s, run);
            && |r.d.on| == |s.d.on| && |r.d.queues| == |s.d.queues| && r.d.limit == s.d.limit
            && |r.curr| == |s.curr|
    decreases |run|
  {
    if run != [] {
      NextSizes(s, run[0]);
      RunSizes(Next(s, run[0]), run[1..]);
    }
  }

  lemma NextSizes(s: State, a: Step)
    requires Enabled(s, a)
    ensures var r := Next(s, a);
            && |r.d.on| == |s.d.on| && |r.d.queues| == |s.d.queues| && r.d.limit == s.d.limit
            && |r.curr| == |s.curr| && |r.d.lastScan| == |s.d.lastScan| && WellFormed(r.d)
  {
    hide AfterSchedule, NotesAfter;
    if a.Schedule? {
      HookForm(s, a);
    }
  }

  lemma HookForm(s: State, a: Step)
    requires Enabled(s, a) && a.Schedule?
    ensures var d, r := s.d, Next(s, a).d;
            && WellFormed(r) && |r.on| == |d.on| && |r.queues| == |d.queues| && r.limit == d.limit
            && |r.lastScan| == |d.lastScan| && r.attr == d.attr && r.stats == d.stats && r.enable == d.enable
  {
    hide NotesAfter, Enqueue, Dequeue, Observe;
    var prev := s.curr[a.cpu];
    KeepsForm(s.d, prev, a.next, s.idle, a.prevOnRq, a.prevHere, a.rqCurr, a.time);
    if s.d.stats && s.d.enable {
      SwitchedKeeps(s.d, prev, a.next, s.idle, a.prevOnRq, a.prevHere, a.rqCurr, a.time);
      ScanForm(Switched(s.d, prev, a.next, s.idle, a.prevOnRq, a.prevHere, a.rqCurr, a.time), a.cpu, a.time);
      hide Switched, ThrottledScan;
    }
  }

  lemma SwitchedKeeps(d: Dsq, prev: nat, next: nat, idle: set<nat>, onRq: bool, here: bool, rqCurr: nat, now: int)
    requires WellFormed(d) && prev < |d.on| && next < |d.on|
    ensures var r := Switched(d, prev, next, idle, onRq, here, rqCurr, now);
            && |r.on| == |d.on| && |r.queues| == |d.queues| && r.limit == d.limit
            && |r.lastScan| == |d.lastScan| && r.attr == d.attr && r.stats == d.stats && r.enable == d.enable
  {
    KeepsForm(d, prev, next, idle, onRq, here, rqCurr, now);
  }

  lemma ScanForm(d: Dsq, cpu: nat, now: int)
    requires WellFormed(d) && cpu < |d.lastScan|
    ensures var r := ThrottledScan(d, cpu, now);
            && WellFormed(r) && r.on == d.on && |r.queues| == |d.queues| && r.limit == d.limit
            && |r.lastScan| == |d.lastScan| && r.attr == d.attr && r.stats == d.stats && r.enable == d.enable
  {
    forall q: nat | q < |d.queues|
      ensures ThrottledScan(d, cpu, now).queues[q].fifo == d.queues[q].fifo
    {
      ScannedQueue(d, cpu, q, now);
    }
  }

  /** Every fifo stays in enqueue order on every run, under removals from the middle: earlier places hold
      tasks that were put on a queue earlier. */
  lemma FifosStayOrdered(s: State, run: seq<Step>, q: nat, i: nat, j: nat)
    requires Initial(s) && Valid(s, run)
    requires q < |After(s, run).d.queues| && i < j < |After(s, run).d.queues[q].fifo|
    ensures |After(s, run).notes.stamp| == |After(s, run).d.on|
    ensures var r := After(s, run); var fifo := r.d.queues[q].fifo;
            fifo[i] < |r.d.on| && fifo[j] < |r.d.on| && r.notes.stamp[fifo[i]] < r.notes.stamp[fifo[j]]
  {
    InitialInv(s);
    RunGood(s, run, false);
    assert Ordered(After(s, run).d.queues[q].fifo, After(s, run).notes.stamp);
  }

  /** Counters when classes change freely: never negative, and their total never under-counts. */
  lemma BacklogNeverUnderCounts(s: State, run: seq<Step>)
    requires Initial(s) && Valid(s, run)
    ensures TotalBacklog(After(s, run).d) >= CountOn(After(s, run).d.on)
    ensures forall q :: 0 <= q < |After(s, run).d.queues| ==> After(s, run).d.queues[q].nr >= 0
  {
    InitialInv(s);
    RunGood(s, run, false);
  }

  /** Counters when classes are stable while queued: every counter is its fifo's length and the reported
      backlog is the number of tasks with on_dsq set. */
  lemma BacklogExact(s: State, run: seq<Step>)
    requires Initial(s) && Valid(s, run) && KeepsClasses(s, run)
    ensures forall q :: 0 <= q < |After(s, run).d.queues| ==>
              After(s, run).d.queues[q].nr == |After(s, run).d.queues[q].fifo|
    ensures TotalBacklog(After(s, run).d) == CountOn(After(s, run).d.on)
  {
    InitialInv(s);
    RunGood(s, run, true);
    NrIsLen(After(s, run).d.queues);
  }

  lemma {:induction false} NrIsLen(queues: seq<Queue>)
    requires forall q :: 0 <= q < |queues| ==> queues[q].nr == |queues[q].fifo|
    ensures SumNr(queues) == SumLen(queues)
    decreases |queues|
  {
    if queues != [] {
      NrIsLen(queues[..|queues| - 1]);
    }
  }

  /** On every run a queue that is not empty has been continuously so since its last_consume_at. */
  lemma NonEmptySinceLastConsume(s: State, run: seq<Step>, q: nat)
    requires Initial(s) && Valid(s, run)
    requires q < |After(s, run).d.queues| && After(s, run).d.queues[q].fifo != []
    ensures |After(s, run).notes.since| == |After(s, run).d.queues|
    ensures After(s, run).d.queues[q].lastConsumeAt == After(s, run).notes.since[q] <= After(s, run).now
  {
    InitialInv(s);
    RunGood(s, run, false);
  }

  /** With stable classes a marked queue is not empty and has been so for longer than its deadline. */
  lemma TimeoutSound(s: State, run: seq<Step>, q: nat)
    requires Initial(s) && Valid(s, run) && KeepsClasses(s, run)
    requires q < |After(s, run).d.queues| && After(s, run).d.queues[q].isTimeout
    ensures |After(s, run).notes.since| == |After(s, run).d.queues| == |s.d.limit|
    ensures After(s, run).d.queues[q].fifo != []
    ensures After(s, run).now > After(s, run).notes.since[q] + s.d.limit[q]
  {
    InitialInv(s);
    RunGood(s, run, true);
    RunSizes(s, run);
  }

  /** Timeouts are found, and found only, when they are there: on every run with stable classes, right after a scan each
      queue it visits (the CPU's own and global queues 5 to 9) is marked exactly if it has been non-empty beyond
      its deadline. */
  lemma ScanIsExact(s: State, run: seq<Step>, a: Step, q: nat)
    requires Initial(s) && Valid(s, run) && KeepsClasses(s, run) && Enabled(After(s, run), a) && a.Schedule?
    requires After(s, run).d.stats && After(s, run).d.enable && a.time > After(s, run).d.lastScan[a.cpu] + 4
    requires q == 10 + a.cpu || 5 <= q < 10
    ensures var r := Next(After(s, run), a);
            && q < |r.d.queues| == |r.notes.since| == |r.d.limit|
            && (r.d.queues[q].isTimeout <==> r.d.queues[q].fifo != [] && a.time > r.notes.since[q] + r.d.limit[q])
  {
    InitialInv(s);
    RunGood(s, run, true);
    hide After, Valid, KeepsClasses, Initial;
    ScanMarks(After(s, run), a, q);
  }

  lemma ScanMarks(s: State, a: Step, q: nat)
    requires Good(s.d, s.notes, s.now, true) && Enabled(s, a) && a.Schedule?
    requires s.d.stats && s.d.enable && a.time > s.d.lastScan[a.cpu] + 4
    requires q == 10 + a.cpu || 5 <= q < 10
    ensures var r := Next(s, a);
            && q < |r.d.queues| == |r.notes.since| == |r.d.limit|
            && (r.d.queues[q].isTimeout <==> r.d.queues[q].fifo != [] && a.time > r.notes.since[q] + r.d.limit[q])
  {
    ScheduleGood(s, a, true);
    HookForm(s, a);
    var prev := s.curr[a.cpu];
    KeepsForm(s.d, prev, a.next, s.idle, a.prevOnRq, a.prevHere, a.rqCurr, a.time);
    SwitchedKeeps(s.d, prev, a.next, s.idle, a.prevOnRq, a.prevHere, a.rqCurr, a.time);
    var d2 := Switched(s.d, prev, a.next, s.idle, a.prevOnRq, a.prevHere, a.rqCurr, a.time);
    assert Next(s, a).d == ThrottledScan(d2, a.cpu, a.time);
    assert d2.lastScan == s.d.lastScan;
    ScanThrottled(d2, a.cpu, a.time);
    ScanEffect(d2, a.cpu, q, a.time);
    GoodParts(Next(s, a), q);
  }

  lemma GoodParts(s: State, q: nat)
    requires Good(s.d, s.notes, s.now, true) && q < |s.d.queues|
    ensures |s.notes.since| == |s.d.queues| == |s.d.limit|
    ensures s.d.queues[q].fifo != [] ==> s.d.queues[q].lastConsumeAt == s.notes.since[q]
    ensures s.d.queues[q].isTimeout ==> s.d.queues[q].fifo != [] && s.now > s.notes.since[q] + s.d.limit[q]
  {
  }

  /** Switching the layer off and syncing leaves nothing behind, on any run: every fifo is empty, every counter 0, no
      queue marked and no task flagged, so that the backlog is 0, the urgency is 0 once the layer is on again,
      and every task can be queued anew. */
  lemma SyncEmpties(s: State, run: seq<Step>, time: int)
    requires Initial(s) && Valid(s, run) && After(s, run).now <= time && !After(s, run).d.enable
    ensures Enabled(After(s, run), CallSync(time))
    ensures var d := Next(After(s, run), CallSync(time)).d;
            && |d.queues| == |After(s, run).d.queues| >= 10 && |d.on| == |s.d.on|
            && (forall q :: 0 <= q < |d.queues| ==> d.queues[q].fifo == [] && d.queues[q].nr == 0 && !d.queues[q].isTimeout)
            && (forall p :: 0 <= p < |d.on| ==> !d.on[p])
            && TotalBacklog(d) == 0 && Urgency(d.(enable := true)) == 0
  {
    InitialInv(s);
    RunGood(s, run, false);
    RunSizes(s, run);
    hide After, Valid, Initial;
    SyncClears(After(s, run).d, After(s, run).notes, time);
  }

  lemma SyncClears(d: Dsq, n: Notes, now: int)
    requires Base(d, n) && Counted(d) && !d.enable
    ensures |n.stamp| == |d.on| && |n.since| == |d.queues| && WellFormed(d)
    ensures var r := Sync(d);
            && |r.queues| == |d.queues| >= 10 && |r.on| == |d.on|
            && (forall q :: 0 <= q < |r.queues| ==> r.queues[q].fifo == [] && r.queues[q].nr == 0 && !r.queues[q].isTimeout)
            && (forall p :: 0 <= p < |r.on| ==> !r.on[p])
            && TotalBacklog(r) == 0 && Urgency(r.(enable := true)) == 0
  {
    var r := Sync(d);
    assert forall p: nat :: p < |d.on| ==> (d.on[p] <==> Queued(d, p));
    SumsZero(r.queues);
    UrgencyCounts(r.(enable := true));
    assert MarkedGlobals(r.(enable := true)) == {};
  }

  lemma {:induction false} FewTimeouts(queues: seq<Queue>, k: nat)
    requires k <= |queues| && k <= GLOBAL_DSQS
    requires forall q :: 0 <= q < k && q !in {6, 8, 9} ==> !queues[q].isTimeout
    ensures Timeouts(queues[..k]) <= (if k > 6 then 1 else 0) + (if k > 8 then 1 else 0) + (if k > 9 then 1 else 0)
  {
    if k > 0 {
      assert queues[..k][..k - 1] == queues[..k - 1];
      FewTimeouts(queues, k - 1);
    }
  }

  /** On every run, whatever classes do, only the foreground, normal and background queues can time out,
      so the urgency is one of four values and the cap of 1024 is never reached. */
  lemma UrgencyLevels(s: State, run: seq<Step>, q: nat)
    requires Initial(s) && Valid(s, run) && q < GLOBAL_DSQS
    ensures |After(s, run).d.queues| >= GLOBAL_DSQS
    ensures After(s, run).d.queues[q].isTimeout ==> q in {6, 8, 9}
    ensures Urgency(After(s, run).d) in {0, 256, 512, 768}
  {
    InitialInv(s);
    RunGood(s, run, false);
    var d := After(s, run).d;
    assert |d.queues| >= GLOBAL_DSQS && Timed(d, After(s, run).notes, After(s, run).now);
    hide After, Good, Valid, Urgency;
    UrgencyOf(d);
  }

  lemma UrgencyOf(d: Dsq)
    requires |d.queues| >= GLOBAL_DSQS
    requires forall q :: 0 <= q < GLOBAL_DSQS && q !in {6, 8, 9} ==> !d.queues[q].isTimeout
    ensures Urgency(d) in {0, 256, 512, 768}
  {
    FewTimeouts(d.queues, GLOBAL_DSQS);
    hide Timeouts;
  }

  // ----- running tasks -----

  predicate RunningOff(s: State) {
    && (forall c :: 0 <= c < |s.curr| ==> s.curr[c] < |s.d.on| && !s.d.on[s.curr[c]])
    && (forall c, e :: 0 <= c < e < |s.curr| ==> s.curr[c] != s.curr[e])
    && (forall p :: 0 <= p < |s.d.on| && p in s.idle ==> !s.d.on[p])
  }

  /** Which flags one schedule hook changes: with both switches on, the task switched out is queued if it is runnable,
      here, not what the runqueue says is running, and not idle; the task switched in is taken off. */
  lemma FlagsAfterSchedule(s: State, a: Step, p: nat)
    requires Enabled(s, a) && a.Schedule? && p < |s.d.on|
    ensures var prev, d' := s.curr[a.cpu], Next(s, a).d;
            && |d'.on| == |s.d.on|
            && (p != prev && p != a.next ==> d'.on[p] == s.d.on[p])
            && (p == a.next && p != prev ==>
                  d'.on[p] == (s.d.on[p] && !(s.d.stats && s.d.enable && p !in s.idle && Home(s.d, p) < |s.d.queues|)))
            && (p == prev && prev == a.next ==> d'.on[p] == s.d.on[p])
            && (p == prev && prev != a.next ==>
                  d'.on[p] == (s.d.on[p] || (s.d.stats && s.d.enable && p !in s.idle && a.prevHere && a.prevOnRq
                                             && p != a.rqCurr && Home(s.d, p) < |s.d.queues|)))
  {
    hide NotesAfter, Observe, Scanned;
    var prev := s.curr[a.cpu];
    KeepsForm(s.d, prev, a.next, s.idle, a.prevOnRq, a.prevHere, a.rqCurr, a.time);
    if s.d.stats && s.d.enable {
      ScanForm(Switched(s.d, prev, a.next, s.idle, a.prevOnRq, a.prevHere, a.rqCurr, a.time), a.cpu, a.time);
      hide ThrottledScan;
    }
  }

  /** One schedule hook keeps running tasks off the queues exactly when the task it switches in was
      off them already, or is taken off: both switches on and the task classified to an existing queue. */
  lemma ScheduleKeepsRunningOff(s: State, a: Step)
    requires Enabled(s, a) && a.Schedule? && RunningOff(s) && Membership(s.d)
    ensures RunningOff(Next(s, a)) <==>
              (s.d.on[a.next] ==> s.d.stats && s.d.enable && Home(s.d, a.next) < |s.d.queues|)
  {
    hide AfterSchedule, NotesAfter;
    var s' := Next(s, a);
    FlagsAfterSchedule(s, a, a.next);
    forall p: nat | p < |s.d.on|
      ensures p != s.curr[a.cpu] && p != a.next ==> s'.d.on[p] == s.d.on[p]
      ensures p in s.idle ==> s'.d.on[p] ==> s.d.on[p] || p == a.next
    {
      FlagsAfterSchedule(s, a, p);
    }
    assert s'.curr[a.cpu] == a.next;
  }

  // The switches stay on and every pinned task is pinned to a CPU that exists.
  predicate SteadyStep(s: State, a: Step) {
    match a
    case SetStats(b) => b
    case SetEnable(b) => b
    case SetAttr(_, attr) => Classify(attr) < |s.d.queues|
    case _ => true
  }

  predicate SteadySteps(s: State, run: seq<Step>) {
    forall i :: 0 <= i < |run| ==> SteadyStep(s, run[i])
  }

  predicate AllPlaced(s: State) {
    && s.d.stats && s.d.enable && |s.d.on| == |s.d.attr|
    && forall p :: 0 <= p < |s.d.attr| ==> Classify(s.d.attr[p]) < |s.d.queues|
  }

  lemma NextKeepsPlaced(s: State, a: Step)
    requires Enabled(s, a) && SteadyStep(s, a) && AllPlaced(s)
    ensures AllPlaced(Next(s, a))
  {
    hide AfterSchedule, NotesAfter;
    if a.Schedule? {
      HookForm(s, a);
    }
  }

  lemma NextKeepsRunningOff(s: State, a: Step)
    requires Enabled(s, a) && AllPlaced(s) && RunningOff(s) && Membership(s.d)
    ensures RunningOff(Next(s, a))
  {
    if a.Schedule? {
      ScheduleKeepsRunningOff(s, a);
    }
  }

  lemma {:induction false} RunKeepsRunningOff(s: State, run: seq<Step>)
    requires Valid(s, run) && Good(s.d, s.notes, s.now, false) && RunningOff(s) && AllPlaced(s) && SteadySteps(s, run)
    ensures RunningOff(After(s, run))
    decreases |run|
  {
    if run != [] {
      var s' := Next(s, run[0]);
      NextGood(s, run[0], false);
      NextSizes(s, run[0]);
      NextKeepsPlaced(s, run[0]);
      NextKeepsRunningOff(s, run[0]);
      hide Next, Good, RunningOff, AllPlaced;
      assert SteadySteps(s', run[1..]);
      RunKeepsRunningOff(s', run[1..]);
    }
  }

  /** With both switches constantly on from an empty start, no task that runs on any CPU is on a queue. */
  lemma RunningNeverQueued(s: State, run: seq<Step>, c: nat)
    requires Initial(s) && Valid(s, run) && AllPlaced(s) && SteadySteps(s, run)
    requires forall e :: 0 <= e < |s.curr| ==> s.curr[e] < |s.d.on|
    requires forall e, f :: 0 <= e < f < |s.curr| ==> s.curr[e] != s.curr[f]
    requires c < |s.curr|
    ensures |After(s, run).curr| == |s.curr|
    ensures var r := After(s, run); r.curr[c] < |r.d.on| && !r.d.on[r.curr[c]]
  {
    InitialInv(s);
    RunKeepsRunningOff(s, run);
    RunSizes(s, run);
  }
}
