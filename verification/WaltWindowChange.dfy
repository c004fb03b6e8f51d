/**
 Changing the window size. lse_irq_work checks the new size against the local CPU only. Where the size
 fits the other CPUs too, exactness and bounds hold across the change (WaltRuns); these lemmas say what
 happens to a CPU it does not fit.
 */
module WaltWindowChange {
  import opened Arith
  import opened WaltModel
  import opened Samples
  import opened WaltBounds
  import opened WaltMachine
  import opened WaltRuns
  import WaltCode

  /** Any CPU within its bounds, in whatever window size, when the next event finds cfg.window in use: the
      event keeps the bounds exactly unless the counter has outgrown a window of that size and the event
      comes before a second such window is over (an event at the task's own mark accounts nothing). */
  lemma StaleWindowBound(rq: Rq, t: Task, idle: bool, ev: Event, time: int, s: Speed, cfg: Config)
    requires ValidConfig(cfg) && ScaleOk(s) && 0 < time
    requires 0 < rq.windowStart && 0 < rq.prevWindowSize && CpuBounded(rq) && Upto(rq) <= time
    requires BusyForCpu(idle, ev) && t.markStart != 0 ==> t.markStart == Upto(rq)
    ensures CpuBounded(RavgRq(rq, t, idle, ev, time, s, cfg))
       <==> t.markStart == time || !(rq.currSum > cfg.window && time < rq.windowStart + 2 * cfg.window)
  {
    if t.markStart != time {
      var rq1 := UpdateWindowStart(rq, time, cfg.window);
      var _ := WindowStartAdvance(rq, time, cfg.window);
      if t.markStart != 0 && BusyForCpu(idle, ev) {
        var mark, ws, scale := t.markStart, rq1.windowStart, ExecScale(s);
        if ws <= mark {
          ScaleBound(time - mark, scale);
        } else {
          ScaleBound(time - ws, scale);
          ScaleBound(ws - mark, scale);
          ScaleBound(rq1.prevWindowSize, scale);
        }
      }
    }
  }

  lemma RunStep(m0: Machine, log: seq<Action>, a: Action)
    requires ValidRun(m0, log) && Enabled(After(m0, log), a)
    ensures ValidRun(m0, log + [a]) && After(m0, log + [a]) == Next(After(m0, log), a)
  {
    assert (log + [a])[..|log + [a]| - 1] == log;
  }

  // ----- rollover work is queued by the election -----

  // lse_run_rollover_lastq_ws, and the CPU on which the rollover work is queued and has not run yet.
  datatype Election = Election(mark: int, queued: Option<nat>)

  // What an action leaves: running the work takes it off first; the CPU whose window start the action moved
  // takes part, and a winner queues the work unless it is queued already.
  function Elects(e: Election, m: Machine, a: Action): Election
    requires Enabled(m, a)
  {
    if a.Request? then e
    else
      NextSizes(m, a);
      var from, to := m.cpus[a.cpu].windowStart, Next(m, a).cpus[a.cpu].windowStart;
      var queued := if a.IrqWork? then None else e.queued;
      Election(WaltCode.Elected(e.mark, from, to),
               if from != to && e.mark == from && queued == None then Some(a.cpu) else queued)
  }

  ghost function ElectionAfter(m0: Machine, s0: int, log: seq<Action>): Election
    requires ValidRun(m0, log)
    decreases |log|
  {
    if log == [] then Election(s0, None)
    else
      Elects(ElectionAfter(m0, s0, log[..|log| - 1]), After(m0, log[..|log| - 1]), log[|log| - 1])
  }

  // Rollover work runs only where a winner queued it.
  ghost predicate WorkIsQueued(m0: Machine, s0: int, log: seq<Action>)
    requires ValidRun(m0, log)
    decreases |log|
  {
    log == []
    || (WorkIsQueued(m0, s0, log[..|log| - 1])
        && (log[|log| - 1].IrqWork? ==> ElectionAfter(m0, s0, log[..|log| - 1]).queued == Some(log[|log| - 1].cpu)))
  }

  // ----- a run that overflows -----

  // Two CPUs, two tasks, a window of 100 and full speed; CPU 1 records are the given ones.
  function TwoCpus(window: int, asked: int, rq0: Rq, rq1: Rq, t0: Task, t1: Task, now: int): Machine {
    Machine(Config(window, 2, 1), asked, {}, [rq0, rq1], [t0, t1], [0, 1], now)
  }

  const FRESH_RQ := Rq(100, 0, 100, CAPACITY_SCALE, 0, 0)
  const FULL_SPEED := Speed(1, 1, CAPACITY_SCALE)

  function TaskWith(mark: int, ws: int, sum: int): Task { Task(mark, ws, sum, Zeros(), 0, 0) }

  // CPU 1 runs from 100 to 190; a window of 60 is requested; CPU 0 enters the window at 200 with a tick
  // at 203, which queues the rollover work; the work adopts 60 at 205; CPU 1, still in the window at 100,
  // updates at 210.
  const START := TwoCpus(100, 100, FRESH_RQ, FRESH_RQ, TaskWith(0, 0, 0), TaskWith(0, 0, 0), 100)
  const SEEN := TwoCpus(100, 100, FRESH_RQ, FRESH_RQ.(latestClock := 100),
                        TaskWith(0, 0, 0), TaskWith(100, 100, 0), 100)
  const BUSY := TwoCpus(100, 100, FRESH_RQ, Rq(100, 190, 100, CAPACITY_SCALE, 0, 90),
                        TaskWith(0, 0, 0), TaskWith(190, 100, 90), 190)
  const ENTERED := TwoCpus(100, 60, Rq(200, 203, 100, CAPACITY_SCALE, 0, 0), Rq(100, 190, 100, CAPACITY_SCALE, 0, 90),
                           TaskWith(203, 200, 0), TaskWith(190, 100, 90), 203)
  const ADOPTED := TwoCpus(60, 60, Rq(200, 205, 100, CAPACITY_SCALE, 0, 2), Rq(100, 190, 100, CAPACITY_SCALE, 0, 90),
                           TaskWith(205, 200, 2), TaskWith(190, 100, 90), 205)

  lemma FullSpeedScale(x: int)
    ensures ExecScale(FULL_SPEED) == CAPACITY_SCALE && Scale(x, CAPACITY_SCALE) == x
  {
  }

  lemma FirstUpdate()
    ensures Enabled(START, Tick(1, 100, FULL_SPEED)) && Next(START, Tick(1, 100, FULL_SPEED)) == SEEN
  {
  }

  lemma BusyUpdate()
    ensures Enabled(SEEN, Tick(1, 190, FULL_SPEED)) && Next(SEEN, Tick(1, 190, FULL_SPEED)) == BUSY
  {
    FullSpeedScale(90);
  }

  lemma Entry()
    ensures Enabled(BUSY.(newWindow := 60), Tick(0, 203, FULL_SPEED))
    ensures Next(BUSY.(newWindow := 60), Tick(0, 203, FULL_SPEED)) == ENTERED
  {
  }

  lemma Adoption()
    ensures Enabled(ENTERED, IrqWork(0, 205, FULL_SPEED)) && Next(ENTERED, IrqWork(0, 205, FULL_SPEED)) == ADOPTED
  {
    FullSpeedScale(2);
  }

  lemma LateUpdate()
    ensures Enabled(ADOPTED, Tick(1, 210, FULL_SPEED))
    ensures |Next(ADOPTED, Tick(1, 210, FULL_SPEED)).cpus| == 2
    ensures var rq := Next(ADOPTED, Tick(1, 210, FULL_SPEED)).cpus[1]; rq.prevSum == 90 && rq.prevWindowSize == 60
  {
    FullSpeedScale(20);
    hide RavgTask;
  }

  /** The guard does not protect the other CPUs: a two-CPU run at full speed, its rollover work queued by the
      election, that ends with a previous-window counter larger than its window. */
  lemma OtherCpuOverflows() returns (log: seq<Action>)
    ensures Seeded(START, 100) && |START.cpus| == 2 && ValidRun(START, log) && AllSpeeds(log, CAPACITY_SCALE)
    ensures WorkIsQueued(START, 100, log)
    ensures |After(START, log).cpus| == 2
    ensures After(START, log).cpus[1].prevSum > After(START, log).cpus[1].prevWindowSize
  {
    hide Next, AllSpeeds, Enabled;
    log := AdoptingRun();
    LateUpdate();
    RunStep(START, log, Tick(1, 210, FULL_SPEED));
    WorkStep(START, 100, log, Tick(1, 210, FULL_SPEED));
    log := log + [Tick(1, 210, FULL_SPEED)];
    FullSpeedLog(log);
  }

  lemma WorkStep(m0: Machine, s0: int, log: seq<Action>, a: Action)
    requires ValidRun(m0, log) && Enabled(After(m0, log), a) && ValidRun(m0, log + [a])
    requires WorkIsQueued(m0, s0, log)
    requires a.IrqWork? ==> ElectionAfter(m0, s0, log).queued == Some(a.cpu)
    ensures WorkIsQueued(m0, s0, log + [a])
    ensures ElectionAfter(m0, s0, log + [a]) == Elects(ElectionAfter(m0, s0, log), After(m0, log), a)
  {
    assert (log + [a])[..|log + [a]| - 1] == log;
  }

  lemma AdoptingRun() returns (log: seq<Action>)
    ensures ValidRun(START, log) && After(START, log) == ADOPTED && WorkIsQueued(START, 100, log)
    ensures forall i :: 0 <= i < |log| ==> log[i].Request? || ((log[i].Tick? || log[i].IrqWork?) && log[i].speed == FULL_SPEED)
  {
    hide Next, Enabled;
    log := [];
    assert ValidRun(START, log) && After(START, log) == START;
    assert WorkIsQueued(START, 100, log) && ElectionAfter(START, 100, log) == Election(100, None);
    hide ValidRun, After, WorkIsQueued, ElectionAfter;
    FirstUpdate();
    RunStep(START, log, Tick(1, 100, FULL_SPEED));
    WorkStep(START, 100, log, Tick(1, 100, FULL_SPEED));
    log := log + [Tick(1, 100, FULL_SPEED)];
    BusyUpdate();
    RunStep(START, log, Tick(1, 190, FULL_SPEED));
    WorkStep(START, 100, log, Tick(1, 190, FULL_SPEED));
    log := log + [Tick(1, 190, FULL_SPEED)];
    Requested();
    RunStep(START, log, Request(60));
    WorkStep(START, 100, log, Request(60));
    log := log + [Request(60)];
    Entry();
    RunStep(START, log, Tick(0, 203, FULL_SPEED));
    WorkStep(START, 100, log, Tick(0, 203, FULL_SPEED));
    log := log + [Tick(0, 203, FULL_SPEED)];
    assert ElectionAfter(START, 100, log) == Election(200, Some(0));
    Adoption();
    RunStep(START, log, IrqWork(0, 205, FULL_SPEED));
    WorkStep(START, 100, log, IrqWork(0, 205, FULL_SPEED));
    log := log + [IrqWork(0, 205, FULL_SPEED)];
  }

  lemma Requested()
    ensures Enabled(BUSY, Request(60)) && Next(BUSY, Request(60)) == BUSY.(newWindow := 60)
  {
  }

  lemma FullSpeedLog(log: seq<Action>)
    requires forall i :: 0 <= i < |log| ==> log[i].Request? || ((log[i].Tick? || log[i].IrqWork?) && log[i].speed == FULL_SPEED)
    ensures AllSpeeds(log, CAPACITY_SCALE)
  {
    FullSpeedScale(0);
  }
}
