/**
 The local laws on whole machines: reachable states satisfy what they assume, the context-switch hook
 is the machine's switch, and an extra tick leaves no trace in what follows.
 */
module WaltReach {
  import opened Arith
  import opened WaltModel
  import opened Samples
  import opened WindowGrid
  import opened WaltBounds
  import opened WaltMachine
  import opened WaltInvariant
  import opened WaltRuns
  import opened WaltGranularity
  import WaltCode

  /** The clock a hook reads, max(rq clock, latest_clock), is the time of the event on every run, so the
      hook of lse_schedule performs exactly the machine's switch, and takes part in the rollover election
      at most once. */
  lemma HookIsSwitch(m: Machine, h: History, a: Action)
    requires Inv(m, h) && Enabled(m, a) && a.Switch?
    ensures var c, prev := a.cpu, m.curr[a.cpu];
            var rq0, p := m.cpus[c], m.tasks[prev];
            var at := Max(a.time, rq0.latestClock);
            && |Next(m, a).cpus| == |m.cpus| && |Next(m, a).tasks| == |m.tasks|
            && if a.next == prev then
                 && Next(m, a).cpus[c] == RavgRq(rq0, p, prev in m.idle, TaskUpdate, at, a.putSpeed, m.cfg)
                 && Next(m, a).tasks[prev] == RavgTask(rq0, p, prev in m.idle, TaskUpdate, true, at, a.putSpeed, m.cfg)
               else
                 var n := m.tasks[a.next];
                 var rq1 := RavgRq(rq0, p, prev in m.idle, PutPrevTask, at, a.putSpeed, m.cfg);
                 var at' := Max(a.time, rq1.latestClock);
                 && Next(m, a).cpus[c] == RavgRq(rq1, n, a.next in m.idle, PickNextTask, at', a.pickSpeed, m.cfg)
                 && Next(m, a).tasks[prev]
                    == RavgTask(rq0, p, prev in m.idle, PutPrevTask, true, at, a.putSpeed, m.cfg)
                 && Next(m, a).tasks[a.next]
                    == RavgTask(rq1, n, a.next in m.idle, PickNextTask, false, at', a.pickSpeed, m.cfg)
                 && Next(m, a).cpus[c].windowStart == rq1.windowStart
  {
    hide RavgRq, RavgTask;
    var c, prev := a.cpu, m.curr[a.cpu];
    assert CpuOk(m, c);
    if a.next != prev {
      TouchFacts(m, c, prev, PutPrevTask, a.time, a.putSpeed);
      var m1 := Touch(m, c, prev, PutPrevTask, a.time, a.putSpeed);
      SameWindow(m1.cpus[c], m1.tasks[a.next], a.next in m.idle, PickNextTask, a.time, a.pickSpeed, m.cfg);
    }
  }

  /** An event at the instant up to which the CPU is complete finds the window where it is. */
  lemma SameWindow(rq: Rq, t: Task, idle: bool, ev: Event, time: int, s: Speed, cfg: Config)
    requires ValidConfig(cfg) && CpuWindowed(rq, cfg.window) && Upto(rq) == time
    ensures RavgRq(rq, t, idle, ev, time, s, cfg).windowStart == rq.windowStart
  {
  }

  // The machine whose records are the given objects.
  ghost function MachineOf(cfg: Config, idle: set<nat>, cpus: seq<WaltCode.LseRq>, tasks: seq<WaltCode.LseTask>,
                           curr: seq<nat>, now: int): Machine
    reads cpus, tasks, set t | t in tasks :: t.sumHistory
    requires forall t :: t in tasks ==> t.Valid()
  {
    Machine(cfg, cfg.window, idle,
            seq(|cpus|, c reads cpus requires 0 <= c < |cpus| => cpus[c].View()),
            seq(|tasks|, p reads tasks, set t | t in tasks :: t.sumHistory
                           requires 0 <= p < |tasks| && tasks[p].Valid() => tasks[p].View()),
            curr, now)
  }

  /** The tick that finds tick_sched_clock at 0 turns freshly initialised records into a start state of every
      run theorem, whatever runs where, with the rollover mark at the same instant as the windows. */
  method FirstTick(cfg: Config, idle: set<nat>, cpus: seq<WaltCode.LseRq>, tasks: seq<WaltCode.LseTask>, curr: seq<nat>,
                   tickSchedClock: WaltCode.Atomic, last: WaltCode.Atomic, clock: int)
    requires ValidConfig(cfg) && 20000 < clock && tickSchedClock != last && tickSchedClock.value == 0
    requires |cpus| == |curr| && forall c, d :: 0 <= c < d < |cpus| ==> cpus[c] != cpus[d] && curr[c] != curr[d]
    requires forall c :: 0 <= c < |curr| ==> curr[c] < |tasks|
    requires forall c :: 0 <= c < |cpus| ==> cpus[c].View() == Rq(0, 0, cfg.window, CAPACITY_SCALE, 0, 0)
    requires forall t :: t in tasks ==> t.Valid() && t.View() == Task(0, 0, 0, Zeros(), 0, 0)
    modifies cpus, tickSchedClock, last
    ensures forall t :: t in tasks ==> t.Valid()
    ensures Seeded(MachineOf(cfg, idle, cpus, tasks, curr, clock), clock - 20000)
    ensures last.value == tickSchedClock.value == clock - 20000
  {
    var _ := WaltCode.LseSchedulerTick(cpus, tickSchedClock, last, clock);
  }

  // A CPU that runs a task seen before, in a state where the counters are bounded.
  ghost predicate RunsSeenTask(m: Machine, h: History, c: nat) {
    && Inv(m, h) && m.newWindow == m.cfg.window && TasksBounded(m, h.s0) && c < |m.cpus|
    && m.curr[c] !in m.idle && m.tasks[m.curr[c]].markStart != 0
  }

  lemma SeenTaskRunning(m: Machine, h: History, c: nat)
    requires RunsSeenTask(m, h, c)
    ensures Running(m.cpus[c], m.tasks[m.curr[c]], m.cfg, h.s0)
  {
    assert CpuOk(m, c) && CpuOnGrid(m.cpus[c], h.s0, m.cfg.window);
  }

  /** Every reachable state with a fixed window is one the granularity laws apply to. */
  lemma ReachableRunning(m0: Machine, s0: int, log: seq<Action>, c: nat)
    requires Seeded(m0, s0) && ValidRun(m0, log) && AllSpeeds(log, 1) && Steady(m0.cfg.window, log)
    requires c < |After(m0, log).cpus| == |After(m0, log).curr| && After(m0, log).curr[c] < |After(m0, log).tasks|
    requires After(m0, log).curr[c] !in m0.idle && After(m0, log).tasks[After(m0, log).curr[c]].markStart != 0
    ensures RunsSeenTask(After(m0, log), HistoryOf(m0, s0, log), c)
  {
    SteadyKeepsInv(m0, s0, log);
    RunTasksBounded(m0, s0, log);
  }

  // At the same scale the speed record and the kind of busy event make no difference.
  lemma SameScaleAlike(rq: Rq, t: Task, ev: Event, time: int, s: Speed, r: Speed, cfg: Config)
    requires ValidConfig(cfg) && ExecScale(s) == ExecScale(r) && (ev.PutPrevTask? || ev.TaskUpdate?)
    ensures RavgRq(rq, t, false, ev, time, s, cfg) == UpdRq(rq, t, time, r, cfg)
    ensures RavgTask(rq, t, false, ev, true, time, s, cfg) == UpdTask(rq, t, time, r, cfg)
  {
    hide UpdateWindowStart, CrossWindows, AddToTaskDemand, Scale;
  }

  // The machine two is the machine one but for the records of CPU c and task p.
  predicate OnlyDiffer(one: Machine, two: Machine, c: nat, p: nat) {
    && c < |one.cpus| == |two.cpus| && p < |one.tasks| == |two.tasks|
    && two == one.(cpus := one.cpus[c := two.cpus[c]], tasks := one.tasks[p := two.tasks[p]])
  }

  // The same, and the time of the last action may differ too.
  predicate Apart(one: Machine, two: Machine, c: nat, p: nat) {
    OnlyDiffer(one, two.(now := one.now), c, p) && one.now <= two.now
  }

  // Actions of other CPUs, and requests for the window size in use.
  predicate Elsewhere(log: seq<Action>, c: nat, window: int) {
    forall i :: 0 <= i < |log| ==> if log[i].Request? then log[i].window == window else log[i].cpu != c
  }

  lemma TouchApart(one: Machine, two: Machine, c: nat, p: nat, d: nat, q: nat, ev: Event, time: int, s: Speed)
    requires WellFormed(one) && Apart(one, two, c, p) && d < |one.cpus| && q < |one.tasks| && d != c && q != p
    ensures WellFormed(two) && Apart(Touch(one, d, q, ev, time, s), Touch(two, d, q, ev, time, s), c, p)
    ensures Touch(one, d, q, ev, time, s).cpus[c] == one.cpus[c] && Touch(two, d, q, ev, time, s).cpus[c] == two.cpus[c]
    ensures Touch(one, d, q, ev, time, s).tasks[p] == one.tasks[p] && Touch(two, d, q, ev, time, s).tasks[p] == two.tasks[p]
  {
    hide RavgRq, RavgTask;
    var r1, r2 := Touch(one, d, q, ev, time, s), Touch(two, d, q, ev, time, s);
    assert r1.cpus[c := r2.cpus[c]] == r2.cpus;
    assert r1.tasks[p := r2.tasks[p]] == r2.tasks;
  }

  // CPU c goes on running p, with the records of both as they were, under the same settings.
  predicate Untouched(m: Machine, m': Machine, c: nat, p: nat) {
    && c < |m.cpus| == |m'.cpus| && c < |m.curr| == |m'.curr| && p < |m.tasks| == |m'.tasks|
    && m.curr[c] == m'.curr[c] == p && m'.cpus[c] == m.cpus[c] && m'.tasks[p] == m.tasks[p]
    && m'.cfg == m.cfg && m'.newWindow == m.newWindow && m'.idle == m.idle
  }

  /** Another CPU's action neither sees nor changes what sets two such machines apart. */
  lemma StepApart(one: Machine, two: Machine, c: nat, p: nat, a: Action)
    requires WellFormed(one) && one.newWindow == one.cfg.window && c < |one.cpus| && one.curr[c] == p
    requires Apart(one, two, c, p) && Enabled(two, a) && Elsewhere([a], c, one.cfg.window)
    ensures Enabled(one, a) && Apart(Next(one, a), Next(two, a), c, p)
    ensures Untouched(one, Next(one, a), c, p) && Untouched(two, Next(two, a), c, p)
    ensures WellFormed(Next(one, a))
  {
    hide RavgRq, RavgTask, Touch;
    assert [a][0] == a;
    match a
    case Request(_) =>
    case Switch(d, next, time, put, pick) =>
      TouchSizes(one, d, one.curr[d], if next == one.curr[d] then TaskUpdate else PutPrevTask, time, put);
      TouchSizes(two, d, one.curr[d], if next == one.curr[d] then TaskUpdate else PutPrevTask, time, put);
      if next == one.curr[d] {
        TouchApart(one, two, c, p, d, next, TaskUpdate, time, put);
      } else {
        TouchApart(one, two, c, p, d, one.curr[d], PutPrevTask, time, put);
        var o1, w1 := Touch(one, d, one.curr[d], PutPrevTask, time, put), Touch(two, d, one.curr[d], PutPrevTask, time, put);
        TouchApart(o1, w1, c, p, d, next, PickNextTask, time, pick);
        TouchSizes(o1, d, next, PickNextTask, time, pick);
        TouchSizes(w1, d, next, PickNextTask, time, pick);
      }
    case _ =>
      TouchSizes(one, a.cpu, one.curr[a.cpu], TaskUpdate, a.time, a.speed);
      TouchSizes(two, a.cpu, one.curr[a.cpu], TaskUpdate, a.time, a.speed);
      TouchApart(one, two, c, p, a.cpu, one.curr[a.cpu], TaskUpdate, a.time, a.speed);
  }

  lemma TouchSizes(m: Machine, c: nat, p: nat, ev: Event, time: int, s: Speed)
    requires WellFormed(m) && c < |m.cpus| && p < |m.tasks|
    ensures var r := Touch(m, c, p, ev, time, s);
            && WellFormed(r) && |r.cpus| == |m.cpus| && |r.tasks| == |m.tasks|
            && r.curr == m.curr && r.cfg == m.cfg && r.newWindow == m.newWindow && r.idle == m.idle && r.now == time
  {
    hide RavgRq, RavgTask;
  }

  lemma {:induction false} RunApart(one: Machine, two: Machine, c: nat, p: nat, log: seq<Action>)
    requires WellFormed(one) && one.newWindow == one.cfg.window && c < |one.cpus| && one.curr[c] == p
    requires Apart(one, two, c, p) && ValidRun(two, log) && Elsewhere(log, c, one.cfg.window)
    ensures ValidRun(one, log) && Apart(After(one, log), After(two, log), c, p)
    ensures Untouched(one, After(one, log), c, p) && Untouched(two, After(two, log), c, p)
    ensures WellFormed(After(one, log)) && two.now <= After(two, log).now
  {
    if log != [] {
      hide Next;
      var front, a := log[..|log| - 1], log[|log| - 1];
      RunApart(one, two, c, p, front);
      StepApart(After(one, front), After(two, front), c, p, a);
      StepLater(After(two, front), a);
    }
  }

  lemma StepLater(m: Machine, a: Action)
    requires Enabled(m, a)
    ensures m.now <= Next(m, a).now
  {
    hide RavgRq, RavgTask;
  }

  // Where a run of other CPUs' actions leads with and without a tick of CPU c at mid before it.
  predicate TickApart(m: Machine, c: nat, mid: int, tick: Speed, one: Machine, two: Machine)
    requires WellFormed(m) && c < |m.cpus|
  {
    var p := m.curr[c];
    && WellFormed(one) && Untouched(m, one, c, p) && Apart(one, two, c, p) && mid <= two.now
    && two.cpus[c] == RavgRq(m.cpus[c], m.tasks[p], p in m.idle, TaskUpdate, mid, tick, m.cfg)
    && two.tasks[p] == RavgTask(m.cpus[c], m.tasks[p], p in m.idle, TaskUpdate, true, mid, tick, m.cfg)
  }

  lemma TickThenRun(m: Machine, c: nat, mid: int, tick: Speed, between: seq<Action>, a: Action)
    requires Enabled(m, Tick(c, mid, tick)) && m.newWindow == m.cfg.window && Elsewhere(between, c, m.cfg.window)
    requires ValidRun(Next(m, Tick(c, mid, tick)), between + [a]) && !a.Request? && a.cpu == c
    ensures ValidRun(m, between) && ValidRun(Next(m, Tick(c, mid, tick)), between)
    ensures var one, two := After(m, between), After(Next(m, Tick(c, mid, tick)), between);
            && TickApart(m, c, mid, tick, one, two) && Enabled(one, a) && Enabled(two, a)
            && ValidRun(m, between + [a]) && After(m, between + [a]) == Next(one, a)
            && After(Next(m, Tick(c, mid, tick)), between + [a]) == Next(two, a)
  {
    hide RavgRq, RavgTask;
    var m1, p := Next(m, Tick(c, mid, tick)), m.curr[c];
    assert m.cpus[c := m1.cpus[c]] == m1.cpus && m.tasks[p := m1.tasks[p]] == m1.tasks;
    assert (between + [a])[..|between + [a]| - 1] == between;
    hide Next;
    RunApart(m, m1, c, p, between);
    EnabledApart(After(m, between), After(m1, between), c, p, a);
  }

  lemma EnabledApart(one: Machine, two: Machine, c: nat, p: nat, a: Action)
    requires WellFormed(one) && Apart(one, two, c, p) && Enabled(two, a)
    ensures Enabled(one, a)
  {
  }

  /** The next update of the running task on its CPU, with the tick before it and without, in terms of the two
      records alone. */
  lemma TickThenTouch(m: Machine, h: History, c: nat, mid: int, tick: Speed, one: Machine, two: Machine, ev: Event,
                      time: int, s: Speed)
    requires RunsSeenTask(m, h, c) && TickApart(m, c, mid, tick, one, two) && (ev.PutPrevTask? || ev.TaskUpdate?)
    requires ExecScale(tick) == ExecScale(s) && ScaleOk(s)
    ensures WellFormed(two)
    ensures var p := m.curr[c];
            var rq, t := m.cpus[c], m.tasks[p];
            var o, w := Touch(one, c, p, ev, time, s), Touch(two, c, p, ev, time, s);
            && OnlyDiffer(o, w, c, p)
            && o.cpus[c] == UpdRq(rq, t, time, s, m.cfg) && o.tasks[p] == UpdTask(rq, t, time, s, m.cfg)
            && w.cpus[c] == UpdRq(UpdRq(rq, t, mid, s, m.cfg), UpdTask(rq, t, mid, s, m.cfg), time, s, m.cfg)
            && w.tasks[p] == UpdTask(UpdRq(rq, t, mid, s, m.cfg), UpdTask(rq, t, mid, s, m.cfg), time, s, m.cfg)
  {
    hide RavgRq, RavgTask, UpdRq, UpdTask, Running, Inv, TasksBounded;
    InvForm(m, h);
    var rq, p := m.cpus[c], m.curr[c];
    var t := m.tasks[p];
    SameScaleAlike(rq, t, TaskUpdate, mid, tick, s, m.cfg);
    SameScaleAlike(rq, t, ev, time, s, s, m.cfg);
    SameScaleAlike(UpdRq(rq, t, mid, s, m.cfg), UpdTask(rq, t, mid, s, m.cfg), ev, time, s, s, m.cfg);
    var o, w := Touch(one, c, p, ev, time, s), Touch(two, c, p, ev, time, s);
    assert o.cpus[c := w.cpus[c]] == w.cpus;
    assert o.tasks[p := w.tasks[p]] == w.tasks;
  }

  lemma InvForm(m: Machine, h: History)
    requires Inv(m, h)
    ensures WellFormed(m)
  {
  }

  // How an action accounts the task that was running.
  function FirstEvent(m: Machine, a: Action): Event
    requires Enabled(m, a) && !a.Request?
  {
    if a.Switch? && a.next != m.curr[a.cpu] then PutPrevTask else TaskUpdate
  }

  lemma SameTouchSameNext(m: Machine, m1: Machine, a: Action)
    requires Enabled(m, a) && Enabled(m1, a) && !a.Request?
    requires m1.curr == m.curr && m1.newWindow == m.newWindow
    requires Touch(m1, a.cpu, m.curr[a.cpu], FirstEvent(m, a), a.time, FirstSpeed(a))
          == Touch(m, a.cpu, m.curr[a.cpu], FirstEvent(m, a), a.time, FirstSpeed(a))
    ensures Next(m1, a) == Next(m, a)
  {
    hide RavgRq, RavgTask;
  }

  /** At full speed an extra tick while a task runs is invisible: whatever other CPUs do in the meantime, the
      next action on that CPU, be it a tick, rollover work or a switch, leaves the whole machine as if the
      tick had not happened. */
  lemma ExtraTickInvisible(m: Machine, h: History, mid: int, tick: Speed, between: seq<Action>, a: Action)
    requires !a.Request? && RunsSeenTask(m, h, a.cpu) && Enabled(m, Tick(a.cpu, mid, tick))
    requires Elsewhere(between, a.cpu, m.cfg.window) && ValidRun(Next(m, Tick(a.cpu, mid, tick)), between + [a])
    requires Speeds(a, CAPACITY_SCALE) && ExecScale(tick) == CAPACITY_SCALE
    ensures ValidRun(m, between + [a])
    ensures After(Next(m, Tick(a.cpu, mid, tick)), between + [a]) == After(m, between + [a])
  {
    hide RavgRq, RavgTask, UpdRq, UpdTask, Running, Next, Inv, TasksBounded, ValidRun, After;
    var c, s := a.cpu, FirstSpeed(a);
    InvForm(m, h);
    TickThenRun(m, c, mid, tick, between, a);
    var one, two := After(m, between), After(Next(m, Tick(c, mid, tick)), between);
    SeenTaskRunning(m, h, c);
    RunningSince(m, h, c);
    TickThenTouch(m, h, c, mid, tick, one, two, FirstEvent(one, a), a.time, s);
    ExtraUpdateFullSpeed(m.cpus[c], m.tasks[m.curr[c]], mid, a.time, s, m.cfg, h.s0);
    SameRecords(Touch(one, c, m.curr[c], FirstEvent(one, a), a.time, s), Touch(two, c, m.curr[c], FirstEvent(one, a), a.time, s),
                c, m.curr[c]);
    SameTouchSameNext(one, two, a);
  }

  lemma RunningSince(m: Machine, h: History, c: nat)
    requires RunsSeenTask(m, h, c)
    ensures m.tasks[m.curr[c]].markStart <= m.now
  {
  }

  lemma SameRecords(one: Machine, two: Machine, c: nat, p: nat)
    requires OnlyDiffer(one, two, c, p) && two.cpus[c] == one.cpus[c] && two.tasks[p] == one.tasks[p]
    ensures two == one
  {
    assert one.cpus[c := one.cpus[c]] == one.cpus && one.tasks[p := one.tasks[p]] == one.tasks;
  }

  /** At any scale that stays the same an extra tick at a window boundary is invisible too. */
  lemma ExtraTickAtBoundary(m: Machine, h: History, mid: int, tick: Speed, between: seq<Action>, a: Action)
    requires !a.Request? && RunsSeenTask(m, h, a.cpu) && Enabled(m, Tick(a.cpu, mid, tick))
    requires Elsewhere(between, a.cpu, m.cfg.window) && ValidRun(Next(m, Tick(a.cpu, mid, tick)), between + [a])
    requires Speeds(a, 1) && ExecScale(tick) == ExecScale(FirstSpeed(a)) && OnGrid(h.s0, m.cfg.window, mid)
    ensures ValidRun(m, between + [a])
    ensures After(Next(m, Tick(a.cpu, mid, tick)), between + [a]) == After(m, between + [a])
  {
    hide RavgRq, RavgTask, UpdRq, UpdTask, Running, Next, Inv, TasksBounded, ValidRun, After, OnGrid;
    var c, s := a.cpu, FirstSpeed(a);
    InvForm(m, h);
    TickThenRun(m, c, mid, tick, between, a);
    var one, two := After(m, between), After(Next(m, Tick(c, mid, tick)), between);
    SeenTaskRunning(m, h, c);
    RunningSince(m, h, c);
    TickThenTouch(m, h, c, mid, tick, one, two, FirstEvent(one, a), a.time, s);
    ExtraUpdateAtBoundary(m.cpus[c], m.tasks[m.curr[c]], mid, a.time, s, m.cfg, h.s0);
    SameRecords(Touch(one, c, m.curr[c], FirstEvent(one, a), a.time, s), Touch(two, c, m.curr[c], FirstEvent(one, a), a.time, s),
                c, m.curr[c]);
    SameTouchSameNext(one, two, a);
  }

  /** Anywhere else it costs that CPU's counters together at most one unit and the task at most one unit of
      running sum or of one sample; every other CPU and task, and the window size, are as without it. */
  lemma ExtraTickCosts(m: Machine, h: History, mid: int, tick: Speed, between: seq<Action>, a: Action)
    requires !a.Request? && RunsSeenTask(m, h, a.cpu) && Enabled(m, Tick(a.cpu, mid, tick))
    requires Elsewhere(between, a.cpu, m.cfg.window) && ValidRun(Next(m, Tick(a.cpu, mid, tick)), between + [a])
    requires m.tasks[m.curr[a.cpu]].markStart < mid < a.time
    requires Speeds(a, 1) && ExecScale(tick) == ExecScale(FirstSpeed(a))
    ensures ValidRun(m, between + [a]) && 0 < h.s0 <= mid
    ensures var p, scale := m.curr[a.cpu], ExecScale(FirstSpeed(a));
            var one, two := After(m, between + [a]), After(Next(m, Tick(a.cpu, mid, tick)), between + [a]);
            && OnlyDiffer(one, two, a.cpu, p)
            && LosesAtMostOne(one.cpus[a.cpu], two.cpus[a.cpu], scale)
            && Costs(one.tasks[p], two.tasks[p], Entering(m.tasks[p], mid, scale, m.cfg, h.s0), mid, a.time, scale,
                     m.cfg, h.s0)
  {
    hide RavgRq, RavgTask, UpdRq, UpdTask, Running, Costs, LosesAtMostOne, Entering, DemandCurrent, Next, ValidRun, After;
    var c, s, p := a.cpu, FirstSpeed(a), m.curr[a.cpu];
    InvForm(m, h);
    TickThenRun(m, c, mid, tick, between, a);
    var one, two := After(m, between), After(Next(m, Tick(c, mid, tick)), between);
    SeenTaskRunning(m, h, c);
    RunningSince(m, h, c);
    TickThenTouch(m, h, c, mid, tick, one, two, FirstEvent(one, a), a.time, s);
    SplitLoses(m.cpus[c], m.tasks[p], mid, a.time, s, m.cfg, h.s0);
    ExtraUpdateTask(m.cpus[c], m.tasks[p], mid, a.time, s, m.cfg, h.s0);
    UpdLatest(m.cpus[c], m.tasks[p], a.time, s, m.cfg, h.s0);
    RestKeepsDifference(one, two, Touch(one, c, p, FirstEvent(one, a), a.time, s),
                        Touch(two, c, p, FirstEvent(one, a), a.time, s), a);
  }

  lemma SplitLoses(rq: Rq, t: Task, mid: int, time: int, s: Speed, cfg: Config, s0: int)
    requires Running(rq, t, cfg, s0) && ScaleOk(s) && t.markStart < mid < time
    ensures LosesAtMostOne(UpdRq(rq, t, time, s, cfg),
                           UpdRq(UpdRq(rq, t, mid, s, cfg), UpdTask(rq, t, mid, s, cfg), time, s, cfg), ExecScale(s))
  {
    hide UpdRq, UpdTask, Running;
    SplitCpuLoss(rq, t, mid, time, s, cfg, s0);
  }

  lemma UpdLatest(rq: Rq, t: Task, time: int, s: Speed, cfg: Config, s0: int)
    requires Running(rq, t, cfg, s0) && ScaleOk(s) && t.markStart < time
    ensures CpuWindowed(UpdRq(rq, t, time, s, cfg), cfg.window)
    ensures UpdRq(rq, t, time, s, cfg).windowStart <= UpdRq(rq, t, time, s, cfg).latestClock == time
  {
    var _ := WindowStartAdvance(rq, time, cfg.window);
  }

  /** Picking the next task, right after the CPU was brought up to date, changes no counter. */
  lemma PickAlike(one: Rq, two: Rq, t: Task, idle: bool, isCurr: bool, time: int, s: Speed, cfg: Config, scale: int)
    requires ValidConfig(cfg) && CpuWindowed(one, cfg.window) && one.windowStart <= one.latestClock == time
    requires LosesAtMostOne(one, two, scale)
    ensures LosesAtMostOne(RavgRq(one, t, idle, PickNextTask, time, s, cfg), RavgRq(two, t, idle, PickNextTask, time, s, cfg), scale)
    ensures RavgTask(one, t, idle, PickNextTask, isCurr, time, s, cfg) == RavgTask(two, t, idle, PickNextTask, isCurr, time, s, cfg)
  {
    hide UpdateTaskDemand, ExecScale;
    assert UpdateWindowStart(one, time, cfg.window) == one && UpdateWindowStart(two, time, cfg.window) == two;
  }

  /** What follows the first update of an action carries the difference along and adds none. */
  lemma RestKeepsDifference(m: Machine, m1: Machine, one: Machine, two: Machine, a: Action)
    requires Enabled(m, a) && Enabled(m1, a) && !a.Request?
    requires m1.curr == m.curr && m1.newWindow == m.newWindow
    requires one == Touch(m, a.cpu, m.curr[a.cpu], FirstEvent(m, a), a.time, FirstSpeed(a))
    requires two == Touch(m1, a.cpu, m.curr[a.cpu], FirstEvent(m, a), a.time, FirstSpeed(a))
    requires OnlyDiffer(one, two, a.cpu, m.curr[a.cpu])
    requires CpuWindowed(one.cpus[a.cpu], m.cfg.window)
    requires one.cpus[a.cpu].windowStart <= one.cpus[a.cpu].latestClock == a.time
    requires LosesAtMostOne(one.cpus[a.cpu], two.cpus[a.cpu], ExecScale(FirstSpeed(a)))
    ensures OnlyDiffer(Next(m, a), Next(m1, a), a.cpu, m.curr[a.cpu])
    ensures LosesAtMostOne(Next(m, a).cpus[a.cpu], Next(m1, a).cpus[a.cpu], ExecScale(FirstSpeed(a)))
    ensures Next(m, a).tasks[m.curr[a.cpu]] == one.tasks[m.curr[a.cpu]]
    ensures Next(m1, a).tasks[m.curr[a.cpu]] == two.tasks[m.curr[a.cpu]]
  {
    hide RavgRq, RavgTask, ExecScale;
    var c, p := a.cpu, m.curr[a.cpu];
    if a.Switch? && a.next != p {
      PickAlike(one.cpus[c], two.cpus[c], one.tasks[a.next], a.next in m.idle, a.next == m.curr[c], a.time, a.pickSpeed,
                m.cfg, ExecScale(a.putSpeed));
      var r1, r2 := Next(m, a), Next(m1, a);
      assert r1.cpus[c := r2.cpus[c]] == r2.cpus;
      assert r1.tasks[p := r2.tasks[p]] == r2.tasks;
    }
  }
}
