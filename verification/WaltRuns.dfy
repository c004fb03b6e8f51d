/**
 What the tracker's counters mean after any run: at full speed they are run times read off the
 event log; at any speed they stay within the time that has passed.
 */
module WaltRuns {
  import opened Arith
  import opened WaltModel
  import opened Samples
  import opened WindowGrid
  import opened WaltBounds
  import opened WaltExact
  import opened WaltMachine
  import opened WaltInvariant

  // ----- which runs -----

  // No request asks for a window size other than the one in use from the start.
  predicate Steady(window: int, log: seq<Action>) {
    forall i :: 0 <= i < |log| && log[i].Request? ==> log[i].window == window
  }

  // Whenever a CPU takes over a new window size, the size fits the window every other CPU is in.
  ghost predicate AdoptionsFit(m0: Machine, log: seq<Action>)
    requires ValidRun(m0, log)
    decreases |log|
  {
    log == []
    || (AdoptionsFit(m0, log[..|log| - 1]) && AdoptionFits(After(m0, log[..|log| - 1]), log[|log| - 1]))
  }

  predicate Speeds(a: Action, lo: int) {
    match a
    case Switch(_, _, _, put, pick) => lo <= ExecScale(put) <= CAPACITY_SCALE && lo <= ExecScale(pick) <= CAPACITY_SCALE
    case Request(_) => true
    case _ => lo <= ExecScale(a.speed) <= CAPACITY_SCALE
  }

  // Every update sees a scale between lo and 1024; lo == 1024 means full speed throughout.
  predicate AllSpeeds(log: seq<Action>, lo: int) {
    forall i :: 0 <= i < |log| ==> Speeds(log[i], lo)
  }

  // ----- the invariant of every run -----

  lemma NextSizes(m: Machine, a: Action)
    requires Enabled(m, a)
    ensures |Next(m, a).cpus| == |m.cpus| && |Next(m, a).tasks| == |m.tasks|
    ensures m.newWindow == m.cfg.window && (a.Request? ==> a.window == m.newWindow) ==>
              Next(m, a).cfg == m.cfg && Next(m, a).newWindow == m.newWindow
  {
    hide RavgRq, RavgTask;
  }

  lemma {:induction false} RunKeepsInv(m0: Machine, s0: int, log: seq<Action>)
    requires Seeded(m0, s0) && ValidRun(m0, log)
    requires AdoptionsFit(m0, log)
    ensures Inv(After(m0, log), HistoryOf(m0, s0, log)) 
    ensures |After(m0, log).cpus| == |m0.cpus| && |After(m0, log).tasks| == |m0.tasks|
    ensures Steady(m0.cfg.window, log) ==>
              After(m0, log).cfg == m0.cfg && After(m0, log).newWindow == m0.cfg.window
  {
    hide RavgRq, RavgTask;
    if log == [] {
      SeededInv(m0, s0);
    } else {
      hide Inv, Touch, AdoptionFits;
      var front, a := log[..|log| - 1], log[|log| - 1];
      RunKeepsInv(m0, s0, front);
      var m, h := After(m0, front), HistoryOf(m0, s0, front);
      assert log == front + [a];
      assert HistoryOf(m0, s0, log) == Append(h, a);
      NextKeepsInv(m, h, a);
      NextSizes(m, a);
    }
  }

  /** Every adoption fits on a one-CPU machine, where the guard of lse_irq_work asks every CPU there is, and
      where the window size stays the same. */
  lemma {:induction false} GuardSuffices(m0: Machine, s0: int, log: seq<Action>)
    requires Seeded(m0, s0) && ValidRun(m0, log)
    requires |m0.cpus| == 1 || Steady(m0.cfg.window, log)
    ensures AdoptionsFit(m0, log)
  {
    if log != [] {
      GuardSuffices(m0, s0, log[..|log| - 1]);
      RunKeepsInv(m0, s0, log[..|log| - 1]);
      hide RavgRq, RavgTask;
    }
  }

  lemma SteadyKeepsInv(m0: Machine, s0: int, log: seq<Action>)
    requires Seeded(m0, s0) && ValidRun(m0, log) && Steady(m0.cfg.window, log)
    ensures AdoptionsFit(m0, log) && Inv(After(m0, log), HistoryOf(m0, s0, log))
    ensures |After(m0, log).cpus| == |m0.cpus| && |After(m0, log).tasks| == |m0.tasks|
    ensures After(m0, log).cfg == m0.cfg && After(m0, log).newWindow == m0.cfg.window
  {
    GuardSuffices(m0, s0, log);
    RunKeepsInv(m0, s0, log);
  }

  // ----- bounds at any speed -----

  predicate CpusBounded(m: Machine) {
    forall c :: 0 <= c < |m.cpus| ==> CpuBounded(m.cpus[c])
  }

  lemma TouchCpuBounded(m: Machine, c: nat, p: nat, ev: Event, time: int, s: Speed)
    requires WellFormed(m) && c < |m.cpus| && p < |m.tasks| && 0 < time && ScaleOk(s)
    requires CpuWindowed(m.cpus[c], m.cfg.window) && Upto(m.cpus[c]) <= time
    requires !ev.PickNextTask? && m.tasks[p].markStart != 0 ==> m.tasks[p].markStart == Upto(m.cpus[c])
    requires CpusBounded(m)
    ensures CpusBounded(Touch(m, c, p, ev, time, s))
  {
    CpuStepBounded(m.cpus[c], m.tasks[p], p in m.idle, ev, time, s, m.cfg);
  }

  lemma NextKeepsCpusBounded(m: Machine, h: History, a: Action)
    requires Inv(m, h) && Enabled(m, a) && Speeds(a, 1)
    requires CpusBounded(m)
    ensures CpusBounded(Next(m, a))
  {
    hide RavgRq, RavgTask;
    match a
    case Request(_) =>
    case Switch(c, next, time, put, pick) =>
      assert CpuOk(m, c);
      if next == m.curr[c] {
        TouchCpuBounded(m, c, next, TaskUpdate, time, put);
      } else {
        TouchCpuBounded(m, c, m.curr[c], PutPrevTask, time, put);
        TouchFacts(m, c, m.curr[c], PutPrevTask, time, put);
        TouchCpuBounded(Touch(m, c, m.curr[c], PutPrevTask, time, put), c, next, PickNextTask, time, pick);
      }
    case _ =>
      assert CpuOk(m, a.cpu);
      TouchCpuBounded(m, a.cpu, m.curr[a.cpu], TaskUpdate, a.time, a.speed);
  }

  /** CPU load bound on every run: neither counter ever exceeds the time it stands for, at any
      mixture of speeds, on any number of CPUs, also across every change of the window size that fits. */
  lemma CpuLoadBounded(m0: Machine, s0: int, log: seq<Action>, c: nat)
    requires Seeded(m0, s0) && ValidRun(m0, log) && AllSpeeds(log, 1)
    requires AdoptionsFit(m0, log)
    requires c < |m0.cpus|
    ensures |After(m0, log).cpus| == |m0.cpus|
    ensures var rq := After(m0, log).cpus[c];
            && rq.windowStart <= Upto(rq) < rq.windowStart + After(m0, log).cfg.window
            && 0 <= rq.currSum <= Upto(rq) - rq.windowStart
            && 0 <= rq.prevSum <= rq.prevWindowSize
  {
    RunCpusBounded(m0, s0, log);
    RunKeepsInv(m0, s0, log);
    assert CpuOk(After(m0, log), c);
  }

  lemma {:induction false} RunCpusBounded(m0: Machine, s0: int, log: seq<Action>)
    requires Seeded(m0, s0) && ValidRun(m0, log) && AllSpeeds(log, 1)
    requires AdoptionsFit(m0, log)
    ensures CpusBounded(After(m0, log))
  {
    if log != [] {
      var front, a := log[..|log| - 1], log[|log| - 1];
      RunCpusBounded(m0, s0, front);
      RunKeepsInv(m0, s0, front);
      NextKeepsCpusBounded(After(m0, front), HistoryOf(m0, s0, front), a);
    }
  }

  predicate CpuOnGrid(rq: Rq, s0: int, window: int)
    requires window > 0
  {
    OnGrid(s0, window, rq.windowStart) && rq.prevWindowSize == window
  }

  predicate TasksBounded(m: Machine, s0: int)
    requires WellFormed(m)
  {
    && (forall c :: 0 <= c < |m.cpus| ==> CpuOnGrid(m.cpus[c], s0, m.cfg.window))
    && (forall p :: 0 <= p < |m.tasks| ==>
          && TaskBounded(m.tasks[p], s0, m.cfg.window)
          && (p in m.idle ==> m.tasks[p].sum == 0)
          && DemandCurrent(m.tasks[p], m.cfg))
  }

  lemma RavgRqOnGrid(rq: Rq, t: Task, idle: bool, ev: Event, time: int, s: Speed, cfg: Config, s0: int)
    requires ValidConfig(cfg) && rq.latestClock <= time && rq.windowStart <= time
    requires CpuOnGrid(rq, s0, cfg.window)
    ensures CpuOnGrid(RavgRq(rq, t, idle, ev, time, s, cfg), s0, cfg.window)
  {
    var n := WindowStartAdvance(rq, time, cfg.window);
    GridStep(s0, cfg.window, rq.windowStart, n);
  }

  lemma TouchTasksBounded(m: Machine, c: nat, p: nat, ev: Event, time: int, s: Speed, s0: int)
    requires WellFormed(m) && c < |m.cpus| && p < |m.tasks| && ScaleOk(s) && 0 < s0 <= time
    requires CpuWindowed(m.cpus[c], m.cfg.window) && Upto(m.cpus[c]) <= time && m.tasks[p].markStart <= time
    requires TasksBounded(m, s0)
    ensures TasksBounded(Touch(m, c, p, ev, time, s), s0)
  {
    hide RavgRq, RavgTask;
    RavgRqOnGrid(m.cpus[c], m.tasks[p], p in m.idle, ev, time, s, m.cfg, s0);
    DemandKept(m.cpus[c], m.tasks[p], p in m.idle, ev, p == m.curr[c], time, s, m.cfg);
    TaskStepBounded(m.cpus[c], m.tasks[p], p in m.idle, ev, p == m.curr[c], time, s, m.cfg, s0);
  }

  lemma NextKeepsTasksBounded(m: Machine, h: History, a: Action)
    requires Inv(m, h) && m.newWindow == m.cfg.window && Enabled(m, a) && Speeds(a, 1)
    requires TasksBounded(m, h.s0)
    ensures TasksBounded(Next(m, a), h.s0)
  {
    hide RavgRq, RavgTask;
    match a
    case Request(_) =>
    case Switch(c, next, time, put, pick) =>
      assert CpuOk(m, c);
      if next == m.curr[c] {
        TouchTasksBounded(m, c, next, TaskUpdate, time, put, h.s0);
      } else {
        TouchTasksBounded(m, c, m.curr[c], PutPrevTask, time, put, h.s0);
        TouchFacts(m, c, m.curr[c], PutPrevTask, time, put);
        TouchTasksBounded(Touch(m, c, m.curr[c], PutPrevTask, time, put), c, next, PickNextTask, time, pick, h.s0);
      }
    case _ =>
      assert CpuOk(m, a.cpu);
      TouchTasksBounded(m, a.cpu, m.curr[a.cpu], TaskUpdate, a.time, a.speed, h.s0);
  }

  lemma ZerosBounded(window: int, policy: int)
    requires window > 0
    ensures AllWithin(Zeros(), window) && MaxOf(Zeros()) == 0
    ensures Demand(policy, 0, Zeros()) == 0
  {
    MaxOfIsMax(Zeros(), 0);
    SumOfWithin(Zeros(), 0);
  }

  lemma {:induction false} RunTasksBounded(m0: Machine, s0: int, log: seq<Action>)
    requires Seeded(m0, s0) && ValidRun(m0, log) && AllSpeeds(log, 1) && Steady(m0.cfg.window, log)
    ensures WellFormed(After(m0, log)) && TasksBounded(After(m0, log), s0)
  {
    SteadyKeepsInv(m0, s0, log);
    if log == [] {
      ZerosBounded(m0.cfg.window, m0.cfg.policy);
      BoundaryOnGrid(s0, m0.cfg.window, 0);
    } else {
      var front, a := log[..|log| - 1], log[|log| - 1];
      RunTasksBounded(m0, s0, front);
      SteadyKeepsInv(m0, s0, front);
      NextKeepsTasksBounded(After(m0, front), HistoryOf(m0, s0, front), a);
    }
  }

  /** Task demand bound on every run with a fixed window: the running sum never exceeds the time
      since the task's window began, no sample exceeds a window, demand is the policy's statistic of the ring
      and at most the largest sample. */
  lemma TaskDemandBounded(m0: Machine, s0: int, log: seq<Action>, p: nat)
    requires Seeded(m0, s0) && ValidRun(m0, log) && AllSpeeds(log, 1) && Steady(m0.cfg.window, log)
    requires p < |m0.tasks|
    ensures |After(m0, log).tasks| == |m0.tasks|
    ensures var t := After(m0, log).tasks[p];
            && 0 <= t.sum <= t.markStart - t.windowStart < m0.cfg.window
            && (forall i :: 0 <= i < |t.samples| ==> 0 <= t.samples[i] <= m0.cfg.window)
            && 0 <= t.demand <= MaxOf(t.samples) <= m0.cfg.window
            && |t.samples| == 5 && IsStatistic(m0.cfg.policy, t.demand, t.samples)
            && (m0.cfg.window >= 0x10_0000 && m0.cfg.divisor == m0.cfg.window / CAPACITY_SCALE ==>
                  t.demandScaled == t.demand / m0.cfg.divisor <= CAPACITY_SCALE)
  {
    SteadyKeepsInv(m0, s0, log);
    RunTasksBounded(m0, s0, log);
    var t := After(m0, log).tasks[p];
    assert TaskBounded(t, s0, m0.cfg.window);
    MaxOfIsMax(t.samples, m0.cfg.window);
    DemandIsStatistic(m0.cfg.policy, t.samples, m0.cfg.window);
    if m0.cfg.window >= 0x10_0000 && m0.cfg.divisor == m0.cfg.window / CAPACITY_SCALE {
      DemandScaledBounded(t, m0.cfg, s0);
    }
  }

  /** A CPU's reported utilisation fits on every run with a fixed window of at least 2^20 ns: at most
      1024, and the cast to u16 loses nothing. */
  lemma CpuUtilFits(m0: Machine, s0: int, log: seq<Action>, c: nat)
    requires Seeded(m0, s0) && ValidRun(m0, log) && AllSpeeds(log, 1) && Steady(m0.cfg.window, log)
    requires c < |m0.cpus| && m0.cfg.window >= 0x10_0000
    ensures |After(m0, log).cpus| == |m0.cpus|
    ensures var rq := After(m0, log).cpus[c];
            0 <= CpuUtil(rq) == rq.prevSum / (m0.cfg.window / CAPACITY_SCALE) <= CAPACITY_SCALE
  {
    SteadyKeepsInv(m0, s0, log);
    RunCpusBounded(m0, s0, log);
    RunTasksBounded(m0, s0, log);
    assert CpuOnGrid(After(m0, log).cpus[c], s0, m0.cfg.window);
    CpuUtilBounded(After(m0, log).cpus[c]);
  }

  // The clock-sanity reports of lse_update_task_ravg and update_window_start.
  predicate Complains(m: Machine, c: nat, p: nat, time: int)
    requires c < |m.cpus| && p < |m.tasks|
  {
    || time < m.cpus[c].latestClock
    || time < m.cpus[c].windowStart
    || m.tasks[p].markStart > m.tasks[p].windowStart + m.cfg.window
  }

  /** None of the three sanity checks fires on any run with a fixed window: not for the clocks a
      next action brings to its CPU, and not for any task's mark. */
  lemma NoComplaints(m0: Machine, s0: int, log: seq<Action>, a: Action, p: nat)
    requires Seeded(m0, s0) && ValidRun(m0, log) && AllSpeeds(log, 1) && Steady(m0.cfg.window, log)
    requires !a.Request? && Enabled(After(m0, log), a) && p < |m0.tasks|
    ensures |After(m0, log).tasks| == |m0.tasks| && a.cpu < |After(m0, log).cpus|
    ensures !Complains(After(m0, log), a.cpu, p, a.time)
  {
    SteadyKeepsInv(m0, s0, log);
    TaskDemandBounded(m0, s0, log, p);
    assert CpuOk(After(m0, log), a.cpu);
  }

  /** Nor does the clamp of add_to_task_demand, or a 32-bit store, ever cut anything off: not in whatever the
      next action adds to the task that was running. (It adds nothing to the task it switches in.) */
  lemma ClampNeverFires(m0: Machine, s0: int, log: seq<Action>, a: Action)
    requires Seeded(m0, s0) && ValidRun(m0, log) && AllSpeeds(log, 1) && Steady(m0.cfg.window, log)
    requires !a.Request? && Enabled(After(m0, log), a) && Speeds(a, 1)
    ensures var m := After(m0, log);
            var rq, t := m.cpus[a.cpu], m.tasks[m.curr[a.cpu]];
            t.markStart != 0 ==>
              NeverClamps(t, UpdateWindowStart(rq, a.time, m.cfg.window).windowStart, ExecScale(FirstSpeed(a)), a.time, m.cfg)
  {
    hide After, ValidRun, NeverClamps, Inv, TasksBounded;
    SteadyKeepsInv(m0, s0, log);
    RunTasksBounded(m0, s0, log);
    var m := After(m0, log);
    if m.tasks[m.curr[a.cpu]].markStart != 0 {
      NextUnclamped(m, HistoryOf(m0, s0, log), a);
    }
  }

  lemma NextUnclamped(m: Machine, h: History, a: Action)
    requires Inv(m, h) && TasksBounded(m, h.s0) && !a.Request? && Enabled(m, a) && Speeds(a, 1)
    requires m.tasks[m.curr[a.cpu]].markStart != 0
    ensures NeverClamps(m.tasks[m.curr[a.cpu]], UpdateWindowStart(m.cpus[a.cpu], a.time, m.cfg.window).windowStart,
                        ExecScale(FirstSpeed(a)), a.time, m.cfg)
  {
    hide NeverClamps, ExecScale;
    var rq, t := m.cpus[a.cpu], m.tasks[m.curr[a.cpu]];
    assert CpuOk(m, a.cpu) && CpuOnGrid(rq, h.s0, m.cfg.window);
    var n := WindowStartAdvance(rq, a.time, m.cfg.window);
    GridStep(h.s0, m.cfg.window, rq.windowStart, n);
    hide RunningOk, MarksOk, UpdateWindowStart;
    AddsUnclamped(t, UpdateWindowStart(rq, a.time, m.cfg.window).windowStart, ExecScale(FirstSpeed(a)), a.time, m.cfg, h.s0);
  }

  // ----- exact CPU accounting at full speed -----

  ghost predicate CpusExact(m: Machine, h: History)
    requires |h.curr0| == |m.cpus|
  {
    forall c :: 0 <= c < |m.cpus| ==> h.s0 <= m.cpus[c].windowStart && CpuExact(m.cpus[c], CpuClock(h, c))
  }

  /** Between its mark and now the log agrees that c has been running its current task. */
  lemma CpuClockAdvances(m: Machine, h: History, c: nat, time: int)
    requires Inv(m, h) && c < |m.cpus| && Upto(m.cpus[c]) <= time && h.s0 <= Upto(m.cpus[c])
    ensures Advances(CpuClock(h, c), Upto(m.cpus[c]), time,
                     m.curr[c] !in m.idle && m.tasks[m.curr[c]].markStart != 0)
  {
    assert CpuOk(m, c) && RunningOk(m, h, c);
    var from, p := Upto(m.cpus[c]), m.curr[c];
    var on := p !in m.idle && m.tasks[p].markStart != 0;
    forall y | from <= y
      ensures BusyAt(h, c)(y) == on
    {
      var r := Runner(h, c, y);
    }
    forall x {:trigger CpuClock(h, c)(x)} | from <= x <= time
      ensures CpuClock(h, c)(x) == CpuClock(h, c)(from) + if on then x - from else 0
    {
      CountAdvances(BusyAt(h, c), h.s0, from, x, on);
    }
  }

  lemma TouchCpuExact(m: Machine, c: nat, p: nat, ev: Event, time: int, s: Speed, F: Clock)
    requires WellFormed(m) && c < |m.cpus| && p < |m.tasks| && 0 < time && ExecScale(s) == CAPACITY_SCALE
    requires CpuWindowed(m.cpus[c], m.cfg.window) && CpuExact(m.cpus[c], F) && Upto(m.cpus[c]) <= time
    requires !ev.PickNextTask? && m.tasks[p].markStart != 0 ==> m.tasks[p].markStart == Upto(m.cpus[c])
    requires Advances(F, Upto(m.cpus[c]), time, BusyForCpu(p in m.idle, ev) && m.tasks[p].markStart != 0)
    ensures CpuExact(Touch(m, c, p, ev, time, s).cpus[c], F)
    ensures m.cpus[c].windowStart <= Touch(m, c, p, ev, time, s).cpus[c].windowStart
  {
    CpuStepExact(m.cpus[c], m.tasks[p], p in m.idle, ev, time, s, m.cfg, F);
    var _ := WindowStartAdvance(m.cpus[c], time, m.cfg.window);
  }

  /** The CPU an action concerns, against the clock of the log before the action. */
  lemma ActedCpuExact(m: Machine, h: History, a: Action)
    requires Inv(m, h) && Enabled(m, a) && !a.Request? && Speeds(a, CAPACITY_SCALE)
    requires CpusExact(m, h)
    ensures a.cpu < |Next(m, a).cpus|
    ensures CpuExact(Next(m, a).cpus[a.cpu], CpuClock(h, a.cpu))
    ensures h.s0 <= Next(m, a).cpus[a.cpu].windowStart
  {
    hide RavgRq, RavgTask;
    var c := a.cpu;
    var F := CpuClock(h, c);
    assert CpuOk(m, c);
    CpuClockAdvances(m, h, c, a.time);
    if !a.Switch? {
      TouchCpuExact(m, c, m.curr[c], TaskUpdate, a.time, a.speed, F);
    } else if a.next == m.curr[c] {
      TouchCpuExact(m, c, a.next, TaskUpdate, a.time, a.putSpeed, F);
    } else {
      TouchCpuExact(m, c, m.curr[c], PutPrevTask, a.time, a.putSpeed, F);
      TouchFacts(m, c, m.curr[c], PutPrevTask, a.time, a.putSpeed);
      var m1 := Touch(m, c, m.curr[c], PutPrevTask, a.time, a.putSpeed);
      TouchCpuExact(m1, c, a.next, PickNextTask, a.time, a.pickSpeed, F);
    }
  }

  lemma NextKeepsCpusExact(m: Machine, h: History, a: Action)
    requires Inv(m, h) && Enabled(m, a) && AdoptionFits(m, a) && Speeds(a, CAPACITY_SCALE)
    requires CpusExact(m, h)
    ensures |Append(h, a).curr0| == |Next(m, a).cpus| && CpusExact(Next(m, a), Append(h, a))
  {
    hide RavgRq, RavgTask, Touch;
    NextKeepsInv(m, h, a);
    var m', h' := Next(m, a), Append(h, a);
    if !a.Request? {
      ActedCpuExact(m, h, a);
    }
    forall c | 0 <= c < |m'.cpus|
      ensures h'.s0 <= m'.cpus[c].windowStart && CpuExact(m'.cpus[c], CpuClock(h', c))
    {
      var rq := m'.cpus[c];
      assert CpuOk(m, c) && CpuOk(m', c);
      assert CpuExact(rq, CpuClock(h, c));
      CpuExactStays(rq, h, a, c);
    }
  }

  lemma CpuExactStays(rq: Rq, h: History, a: Action, c: nat)
    requires c < |h.curr0| && CpuExact(rq, CpuClock(h, c)) && 0 <= rq.prevWindowSize
    requires a.Request? || Upto(rq) <= a.time
    ensures CpuExact(rq, CpuClock(Append(h, a), c))
  {
    hide CpuClock;
    PastIsFixed(h, a, Upto(rq));
    PastIsFixed(h, a, rq.windowStart);
    PastIsFixed(h, a, rq.windowStart - rq.prevWindowSize);
  }

  lemma SeededCpusExact(m: Machine, s0: int)
    requires Seeded(m, s0)
    ensures CpusExact(m, HistoryOf(m, s0, []))
  {
  }

  lemma {:induction false} RunCpusExact(m0: Machine, s0: int, log: seq<Action>)
    requires Seeded(m0, s0) && ValidRun(m0, log) && AllSpeeds(log, CAPACITY_SCALE)
    requires AdoptionsFit(m0, log)
    ensures |After(m0, log).cpus| == |m0.curr|
    ensures CpusExact(After(m0, log), HistoryOf(m0, s0, log))
  {
    hide CpuExact, Next;
    RunKeepsInv(m0, s0, log);
    if log == [] {
      SeededCpusExact(m0, s0);
    } else {
      var front, a := log[..|log| - 1], log[|log| - 1];
      RunCpusExact(m0, s0, front);
      RunKeepsInv(m0, s0, front);
      assert log == front + [a];
      NextKeepsCpusExact(After(m0, front), HistoryOf(m0, s0, front), a);
    }
  }

  // Busy time of c in [a, b), counted instant by instant from the log.
  ghost function BusyTime(h: History, c: nat, a: int, b: int): int
    requires c < |h.curr0|
  {
    Count(BusyAt(h, c), Max(a, h.s0), b)
  }

  // Run time of p in [a, b), counted instant by instant from the log.
  ghost function TaskTime(h: History, p: nat, a: int, b: int): int {
    Count(RunsAt(h, p), Max(a, h.s0), b)
  }

  lemma {:induction false} CountFrom(P: int -> bool, s0: int, a: int, b: int)
    requires a <= b && s0 <= b
    ensures Count(P, s0, b) - Count(P, s0, a) == Count(P, Max(a, s0), b)
    decreases b - Max(a, s0)
  {
    if Max(a, s0) < b {
      CountFrom(P, s0, a, b - 1);
    }
  }

  /** Exact CPU accounting: after any run at full speed, with tasks migrating freely, the current
      counter is the CPU's non-idle run time in its current window up to its last update, and the
      previous counter its non-idle run time in the window before, however many were skipped, also
      across every change of the window size that fits. */
  lemma CpuLoadIsBusyTime(m0: Machine, s0: int, log: seq<Action>, c: nat)
    requires Seeded(m0, s0) && ValidRun(m0, log) && AllSpeeds(log, CAPACITY_SCALE)
    requires AdoptionsFit(m0, log)
    requires c < |m0.curr|
    ensures |After(m0, log).cpus| == |m0.curr|
    ensures var rq := After(m0, log).cpus[c];
            var h := HistoryOf(m0, s0, log);
            && rq.currSum == BusyTime(h, c, rq.windowStart, Upto(rq))
            && rq.prevSum == BusyTime(h, c, rq.windowStart - rq.prevWindowSize, rq.windowStart)
  {
    hide BusyTime, CpuExact, CpuClock, After, ValidRun, Inv, CpusExact, AllSpeeds, AdoptionsFit, Seeded;
    RunCpusExact(m0, s0, log);
    RunKeepsInv(m0, s0, log);
    ExactParts(After(m0, log), HistoryOf(m0, s0, log), c);
    CpuExactCounts(After(m0, log).cpus[c], HistoryOf(m0, s0, log), c);
  }

  lemma ExactParts(m: Machine, h: History, c: nat)
    requires Inv(m, h) && |h.curr0| == |m.cpus| && CpusExact(m, h) && c < |m.cpus|
    ensures CpuExact(m.cpus[c], CpuClock(h, c)) && h.s0 <= m.cpus[c].windowStart && 0 <= m.cpus[c].prevWindowSize
  {
    hide CpuExact, CpuClock;
    assert CpuOk(m, c);
  }

  lemma CpuExactCounts(rq: Rq, h: History, c: nat)
    requires c < |h.curr0| && CpuExact(rq, CpuClock(h, c))
    requires h.s0 <= rq.windowStart && 0 <= rq.prevWindowSize
    ensures rq.currSum == BusyTime(h, c, rq.windowStart, Upto(rq))
    ensures rq.prevSum == BusyTime(h, c, rq.windowStart - rq.prevWindowSize, rq.windowStart)
  {
    CountFrom(BusyAt(h, c), h.s0, rq.windowStart, Upto(rq));
    CountFrom(BusyAt(h, c), h.s0, rq.windowStart - rq.prevWindowSize, rq.windowStart);
  }

  /** After every action the acting CPU is complete up to that action, within the current window. */
  lemma ActedCpuIsCurrent(m0: Machine, s0: int, log: seq<Action>, a: Action)
    requires Seeded(m0, s0) && ValidRun(m0, log + [a]) && !a.Request?
    requires AdoptionsFit(m0, log + [a])
    ensures a.cpu < |After(m0, log + [a]).cpus|
    ensures var m := After(m0, log + [a]);
            && Upto(m.cpus[a.cpu]) == a.time
            && m.cpus[a.cpu].windowStart <= a.time < m.cpus[a.cpu].windowStart + m.cfg.window
  {
    var front := (log + [a])[..|log + [a]| - 1];
    assert front == log;
    RunKeepsInv(m0, s0, log);
    NextKeepsInv(After(m0, log), HistoryOf(m0, s0, log), a);
  }

  // ----- exact task history at full speed -----

  ghost predicate TasksExact(m: Machine, h: History)
    requires WellFormed(m)
  {
    forall p :: 0 <= p < |m.tasks| && p !in m.idle ==> TaskExact(m.tasks[p], TaskClock(h, p), h.s0, m.cfg.window)
  }

  lemma RunsAtRunning(m: Machine, h: History, c: nat, y: int)
    requires Inv(m, h) && c < |m.cpus| && 0 != m.tasks[m.curr[c]].markStart <= y
    ensures RunsAt(h, m.curr[c])(y)
  {
    assert RunningOk(m, h, c);
    assert Runner(h, c, y) == Some(m.curr[c]);
  }

  lemma RunsAtStopped(m: Machine, h: History, p: nat, y: int)
    requires Inv(m, h) && p < |m.tasks| && m.tasks[p].markStart <= y
    requires m.tasks[p].markStart == 0 || forall c :: 0 <= c < |m.cpus| ==> m.curr[c] != p
    ensures !RunsAt(h, p)(y)
  {
    forall c: nat | c < |h.curr0|
      ensures Runner(h, c, y) != Some(p)
    {
      assert RunningOk(m, h, c) && MarksOk(m, h, c);
      var r := Runner(h, c, y);
    }
  }

  /** A task's clock since its mark: running, or not, or never seen. */
  lemma TaskClockAdvances(m: Machine, h: History, p: nat, time: int, running: bool)
    requires Inv(m, h) && p < |m.tasks| && m.now <= time
    requires if running && m.tasks[p].markStart != 0 then exists c: nat :: c < |m.cpus| && m.curr[c] == p
             else m.tasks[p].markStart == 0 || forall c :: 0 <= c < |m.cpus| ==> m.curr[c] != p
    requires m.tasks[p].markStart != 0 ==> h.s0 <= m.tasks[p].markStart
    ensures if m.tasks[p].markStart == 0 then Advances(TaskClock(h, p), h.s0, time, false)
            else Advances(TaskClock(h, p), m.tasks[p].markStart, time, running)
  {
    var mark := m.tasks[p].markStart;
    var from, on := if mark == 0 then h.s0 else mark, running && mark != 0;
    forall y | from <= y
      ensures RunsAt(h, p)(y) == on
    {
      if on {
        var c: nat :| c < |m.cpus| && m.curr[c] == p;
        RunsAtRunning(m, h, c, y);
      } else {
        RunsAtStopped(m, h, p, y);
      }
    }
    forall x {:trigger TaskClock(h, p)(x)} | from <= x <= time
      ensures TaskClock(h, p)(x) == TaskClock(h, p)(from) + if on then x - from else 0
    {
      CountAdvances(RunsAt(h, p), h.s0, from, x, on);
    }
  }

  lemma TouchTaskExact(m: Machine, c: nat, p: nat, ev: Event, time: int, s: Speed, F: Clock, s0: int)
    requires WellFormed(m) && c < |m.cpus| && p < |m.tasks| && p !in m.idle
    requires ExecScale(s) == CAPACITY_SCALE && 0 < s0 <= time
    requires CpuWindowed(m.cpus[c], m.cfg.window) && Upto(m.cpus[c]) <= time && m.tasks[p].markStart <= time
    requires TasksBounded(m, s0) && TaskExact(m.tasks[p], F, s0, m.cfg.window)
    requires if m.tasks[p].markStart == 0 then Advances(F, s0, time, false)
             else Advances(F, m.tasks[p].markStart, time, BusyForDemand(false, ev, p == m.curr[c]))
    ensures TaskExact(Touch(m, c, p, ev, time, s).tasks[p], F, s0, m.cfg.window)
  {
    hide TaskExact, RavgTask, RavgRq;
    TaskStepExact(m.cpus[c], m.tasks[p], ev, p == m.curr[c], time, s, m.cfg, F, s0);
  }

  /** Every task, against the clock of the log before the action. */
  lemma ActedTasksExact(m: Machine, h: History, a: Action, p: nat)
    requires Inv(m, h) && m.newWindow == m.cfg.window && Enabled(m, a) && !a.Request?
    requires Speeds(a, CAPACITY_SCALE) && TasksBounded(m, h.s0) && TasksExact(m, h)
    requires p < |m.tasks| && p !in m.idle
    ensures p < |Next(m, a).tasks|
    ensures TaskExact(Next(m, a).tasks[p], TaskClock(h, p), h.s0, m.cfg.window)
  {
    hide RavgRq, RavgTask, TaskExact;
    var c := a.cpu;
    var F := TaskClock(h, p);
    assert CpuOk(m, c);
    assert TaskBounded(m.tasks[p], h.s0, m.cfg.window);
    if a.Switch? && a.next != m.curr[c] {
      SwitchedTaskExact(m, h, c, a.next, a.time, a.putSpeed, a.pickSpeed, p);
    } else if p == m.curr[c] {
      TaskClockAdvances(m, h, p, a.time, true);
      TouchTaskExact(m, c, p, TaskUpdate, a.time, if a.Switch? then a.putSpeed else a.speed, F, h.s0);
    }
  }

  lemma SwitchedTaskExact(m: Machine, h: History, c: nat, next: nat, time: int, put: Speed, pick: Speed, p: nat)
    requires Inv(m, h) && Enabled(m, Switch(c, next, time, put, pick)) && next != m.curr[c]
    requires ExecScale(put) == CAPACITY_SCALE && ExecScale(pick) == CAPACITY_SCALE
    requires TasksBounded(m, h.s0) && TasksExact(m, h)
    requires p < |m.tasks| && p !in m.idle
    ensures p < |Next(m, Switch(c, next, time, put, pick)).tasks|
    ensures TaskExact(Next(m, Switch(c, next, time, put, pick)).tasks[p], TaskClock(h, p), h.s0, m.cfg.window)
  {
    hide RavgRq, RavgTask, TaskExact;
    var prev := m.curr[c];
    var F := TaskClock(h, p);
    assert CpuOk(m, c);
    assert TaskBounded(m.tasks[p], h.s0, m.cfg.window);
    TouchFacts(m, c, prev, PutPrevTask, time, put);
    var m1 := Touch(m, c, prev, PutPrevTask, time, put);
    TouchFacts(m1, c, next, PickNextTask, time, pick);
    if p == prev {
      TaskClockAdvances(m, h, p, time, true);
      TouchTaskExact(m, c, p, PutPrevTask, time, put, F, h.s0);
    } else if p == next {
      TaskClockAdvances(m, h, p, time, false);
      TouchTasksBounded(m, c, prev, PutPrevTask, time, put, h.s0);
      TouchTaskExact(m1, c, p, PickNextTask, time, pick, F, h.s0);
    }
  }

  lemma NextKeepsConfig(m: Machine, a: Action)
    requires Enabled(m, a) && m.newWindow == m.cfg.window
    ensures Next(m, a).cfg == m.cfg && Next(m, a).idle == m.idle
    ensures a.Request? ==> Next(m, a).tasks == m.tasks
  {
  }

  lemma NextKeepsTasksExact(m: Machine, h: History, a: Action)
    requires Inv(m, h) && m.newWindow == m.cfg.window && Enabled(m, a) && Speeds(a, CAPACITY_SCALE)
    requires a.Request? ==> a.window == m.cfg.window
    requires TasksBounded(m, h.s0) && TasksExact(m, h)
    ensures WellFormed(Next(m, a)) && TasksExact(Next(m, a), Append(h, a))
  {
    hide RavgRq, RavgTask, Touch, TaskExact, Next;
    NextKeepsConfig(m, a);
    NextKeepsInv(m, h, a);
    var m', h' := Next(m, a), Append(h, a);
    forall p | 0 <= p < |m'.tasks| && p !in m'.idle
      ensures TaskExact(m'.tasks[p], TaskClock(h', p), h'.s0, m'.cfg.window)
    {
      if a.Request? {
        assert TaskExact(m.tasks[p], TaskClock(h, p), h.s0, m.cfg.window);
      } else {
        ActedTasksExact(m, h, a, p);
      }
      forall x | x <= m'.now
        ensures TaskClock(h, p)(x) == TaskClock(h', p)(x)
      {
        PastIsFixed(h, a, x);
      }
      TaskExactAgree(m'.tasks[p], TaskClock(h, p), TaskClock(h', p), h.s0, m'.cfg.window, m'.now);
    }
  }

  lemma SeededTasksExact(m: Machine, s0: int)
    requires Seeded(m, s0)
    ensures TasksExact(m, HistoryOf(m, s0, []))
  {
  }

  lemma {:induction false} RunTasksExact(m0: Machine, s0: int, log: seq<Action>)
    requires Seeded(m0, s0) && ValidRun(m0, log) && AllSpeeds(log, CAPACITY_SCALE) && Steady(m0.cfg.window, log)
    ensures WellFormed(After(m0, log)) && TasksExact(After(m0, log), HistoryOf(m0, s0, log))
  {
    hide TaskExact, TasksBounded, Next;
    SteadyKeepsInv(m0, s0, log);
    if log == [] {
      SeededTasksExact(m0, s0);
    } else {
      var front, a := log[..|log| - 1], log[|log| - 1];
      RunTasksExact(m0, s0, front);
      SteadyKeepsInv(m0, s0, front);
      RunTasksBounded(m0, s0, front);
      assert log == front + [a];
      NextKeepsTasksExact(After(m0, front), HistoryOf(m0, s0, front), a);
    }
  }

  // Run time of p in each of the first k windows of the grid.
  ghost function PerWindow(h: History, p: nat, window: int, k: nat): (r: seq<int>)
    ensures |r| == k
  {
    if k == 0 then []
    else PerWindow(h, p, window, k - 1)
         + [TaskTime(h, p, Boundary(h.s0, window, k - 1), Boundary(h.s0, window, k))]
  }

  lemma {:induction false} WindowsArePerWindow(h: History, p: nat, window: int, k: nat)
    requires window > 0
    ensures Windows(TaskClock(h, p), h.s0, window, k) == PerWindow(h, p, window, k)
  {
    if k > 0 {
      WindowsArePerWindow(h, p, window, k - 1);
      BoundaryOrder(h.s0, window, 0, k - 1);
      CountFrom(RunsAt(h, p), h.s0, Boundary(h.s0, window, k - 1), Boundary(h.s0, window, k));
    }
  }

  /** Exact task history: after any run at full speed with a fixed window, the ring of a task, read
      oldest first, is the last five non-zero per-window run times on the shared grid, padded with
      zeros at the start, and the running sum is its run time in the window of its last update. */
  lemma TaskHistoryIsRunTime(m0: Machine, s0: int, log: seq<Action>, p: nat)
    requires Seeded(m0, s0) && ValidRun(m0, log) && AllSpeeds(log, CAPACITY_SCALE) && Steady(m0.cfg.window, log)
    requires p < |m0.tasks| && p !in m0.idle
    ensures |After(m0, log).tasks| == |m0.tasks|
    ensures var t := After(m0, log).tasks[p];
            var h, window := HistoryOf(m0, s0, log), m0.cfg.window;
            if t.markStart == 0 then
              t.samples == Zeros() && t.sum == 0
            else
              && s0 <= t.markStart
              && t.sum == TaskTime(h, p, Grid(s0, window, t.markStart), t.markStart)
              && t.samples == LastN(Zeros() + NonZero(PerWindow(h, p, window, Index(s0, window, t.markStart))), 5)
  {
    SteadyKeepsInv(m0, s0, log);
    RunTasksExact(m0, s0, log);
    var m, h, window := After(m0, log), HistoryOf(m0, s0, log), m0.cfg.window;
    var t := m.tasks[p];
    assert TaskExact(t, TaskClock(h, p), s0, window);
    if t.markStart != 0 {
      WindowsArePerWindow(h, p, window, Index(s0, window, t.markStart));
      BoundaryOrder(s0, window, 0, Index(s0, window, t.markStart));
      CountFrom(RunsAt(h, p), s0, Grid(s0, window, t.markStart), t.markStart);
    }
  }
}
