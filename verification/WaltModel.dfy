/**
 The window accounting of lse_util_track.c on values: what one call of
 lse_update_task_ravg does to a CPU record and a task record. WaltCode proves that the
 in-place code computes exactly these functions; the run-level results are about them.
 Time is mathematical; u32 and u16 stores are written out.
 */
module WaltModel {
  import opened Arith

  // RAVG_HIST_SIZE
  const HIST_SIZE := 5

  // enum task_event
  datatype Event = PutPrevTask | PickNextTask | TaskWake | TaskMigrate | TaskUpdate | IrqUpdate

  // struct lse_rq
  datatype Rq = Rq(
    windowStart: int,
    latestClock: int,
    prevWindowSize: int,
    execScale: int,
    prevSum: int,
    currSum: int)

  // struct lse_task_struct; samples is the ring sum_history read from cidx, oldest first.
  datatype Task = Task(
    markStart: int,
    windowStart: int,
    sum: int,
    samples: seq<int>,
    demand: int,
    demandScaled: int)

  // What cpufreq and the architecture report for a CPU.
  datatype Speed = Speed(maxFreq: nat, curFreq: nat, capacity: nat)

  // lse_sched_ravg_window, sched_window_stats_policy, lse_scale_demand_divisor
  datatype Config = Config(window: int, policy: int, divisor: int)

  predicate ValidConfig(cfg: Config) {
    0 < cfg.window < 0x1_0000_0000 && 0 < cfg.divisor
  }

  // ----- CPU window -----

  // rollover_cpu_window
  function Rollover(rq: Rq, fullWindow: bool): Rq {
    rq.(prevSum := if fullWindow then 0 else rq.currSum, currSum := 0)
  }

  // update_window_start, including its two repairs of a clock that ran backwards
  function UpdateWindowStart(rq: Rq, wallclock: int, window: int): Rq
    requires window > 0
  {
    var clock := Max(Max(wallclock, rq.latestClock), rq.windowStart);
    var delta := clock - rq.windowStart;
    if delta < window then
      rq.(latestClock := clock)
    else
      var n := Whole(delta, window);
      Rollover(rq.(latestClock := clock,
                   windowStart := rq.windowStart + n * window,
                   prevWindowSize := window),
               n > 1)
  }

  // update_task_rq_cpu_cycles
  function ExecScale(s: Speed): int {
    Max(1, if s.maxFreq == 0 then s.capacity
           else (s.curFreq * s.capacity + (s.maxFreq - 1)) / s.maxFreq)
  }

  // ----- task demand -----

  function LastN(s: seq<int>, n: nat): (r: seq<int>)
    ensures |r| == if |s| <= n then |s| else n
  {
    if |s| <= n then s else s[|s| - n..]
  }

  function Repeat(v: int, n: nat): (r: seq<int>)
    ensures |r| == n
    ensures forall i :: 0 <= i < n ==> r[i] == v
  {
    if n == 0 then [] else Repeat(v, n - 1) + [v]
  }

  function SumOf(s: seq<int>): int {
    if s == [] then 0 else SumOf(s[..|s| - 1]) + s[|s| - 1]
  }

  function MaxOf(s: seq<int>): int {
    if s == [] then 0 else Max(MaxOf(s[..|s| - 1]), s[|s| - 1])
  }

  // WINDOW_STATS_RECENT 0, WINDOW_STATS_MAX 1, WINDOW_STATS_AVG 3; anything else is max(avg, recent)
  function Demand(policy: int, runtime: int, samples: seq<int>): int {
    var avg := SumOf(samples) / HIST_SIZE;
    if policy == 0 then runtime
    else if policy == 1 then MaxOf(samples)
    else if policy == 3 then avg
    else Max(avg, runtime)
  }

  // update_history
  function UpdateHistory(t: Task, idle: bool, runtime: int, n: nat, cfg: Config): Task
    requires ValidConfig(cfg)
  {
    if runtime == 0 || idle || n == 0 then
      t
    else
      var samples := LastN(t.samples + Repeat(runtime, n), HIST_SIZE);
      var demand := Demand(cfg.policy, runtime, samples);
      t.(samples := samples, sum := 0, demand := demand, demandScaled := U16(demand / cfg.divisor))
  }

  // add_to_task_demand
  function AddToTaskDemand(t: Task, delta: int, scale: int, window: int): Task {
    var sum := U32(t.sum + Scale(delta, scale));
    t.(sum := if sum > window then window else sum)
  }

  // account_busy_for_task_demand with SCHED_ACCOUNT_WAIT_TIME == 0
  predicate BusyForDemand(idle: bool, ev: Event, isCurr: bool) {
    !idle && !ev.TaskWake? && !ev.PickNextTask? && !ev.TaskMigrate? && (ev.TaskUpdate? ==> isCurr)
  }

  // update_task_demand on a busy span that starts before the CPU's window
  function CrossWindows(t: Task, ws: int, scale: int, idle: bool, wallclock: int, cfg: Config): Task
    requires ValidConfig(cfg) && t.markStart < ws
  {
    var n := Whole(ws - t.markStart, cfg.window);
    var first := ws - n * cfg.window;
    var t1 := AddToTaskDemand(t, first - t.markStart, scale, cfg.window);
    var t2 := UpdateHistory(t1, idle, t1.sum, 1, cfg);
    var t3 := UpdateHistory(t2, idle, U32(Scale(cfg.window, scale)), n, cfg);
    AddToTaskDemand(t3, wallclock - ws, scale, cfg.window)
  }

  // update_task_demand, the task's new record
  function UpdateTaskDemand(t: Task, ws: int, scale: int, idle: bool, ev: Event, isCurr: bool,
                            wallclock: int, cfg: Config): Task
    requires ValidConfig(cfg)
  {
    if !BusyForDemand(idle, ev, isCurr) then
      if t.markStart < ws then UpdateHistory(t, idle, t.sum, 1, cfg) else t
    else if ws <= t.markStart then
      AddToTaskDemand(t, wallclock - t.markStart, scale, cfg.window)
    else
      CrossWindows(t, ws, scale, idle, wallclock, cfg)
  }

  // update_task_demand, the run time it reports as accounted
  function DemandRuntime(mark: int, ws: int, scale: int, busy: bool, wallclock: int, window: int): int
    requires window > 0
  {
    if !busy then 0
    else if ws <= mark then Scale(wallclock - mark, scale)
    else
      var n := Whole(ws - mark, window);
      Scale(ws - n * window - mark, scale) + n * Scale(window, scale) + Scale(wallclock - ws, scale)
  }

  // ----- CPU busy time -----

  // account_busy_for_cpu_time
  predicate BusyForCpu(idle: bool, ev: Event) {
    !idle && (ev.PutPrevTask? || ev.TaskUpdate?)
  }

  // update_cpu_busy_time
  function UpdateCpuBusyTime(rq: Rq, mark: int, idle: bool, ev: Event, wallclock: int): Rq {
    if !BusyForCpu(idle, ev) then
      rq
    else if rq.windowStart <= mark then
      rq.(currSum := rq.currSum + Scale(wallclock - mark, rq.execScale))
    else
      var full := rq.windowStart - mark >= rq.prevWindowSize;
      var piece := if full then rq.prevWindowSize else rq.windowStart - mark;
      rq.(prevSum := rq.prevSum + Scale(piece, rq.execScale),
          currSum := rq.currSum + Scale(wallclock - rq.windowStart, rq.execScale))
  }

  // ----- one event -----

  // lse_update_task_ravg with slim_walt_ctrl on: the CPU's new record
  function RavgRq(rq: Rq, t: Task, idle: bool, ev: Event, wallclock: int, s: Speed, cfg: Config): Rq
    requires ValidConfig(cfg)
  {
    if rq.windowStart == 0 || t.markStart == wallclock then
      rq
    else
      var rq1 := UpdateWindowStart(rq, wallclock, cfg.window);
      if t.markStart == 0 then rq1
      else UpdateCpuBusyTime(rq1.(execScale := ExecScale(s)), t.markStart, idle, ev, wallclock)
  }

  // lse_update_task_ravg with slim_walt_ctrl on: the task's new record
  function RavgTask(rq: Rq, t: Task, idle: bool, ev: Event, isCurr: bool, wallclock: int, s: Speed,
                    cfg: Config): Task
    requires ValidConfig(cfg)
  {
    if rq.windowStart == 0 || t.markStart == wallclock then
      t
    else
      var ws := UpdateWindowStart(rq, wallclock, cfg.window).windowStart;
      if t.markStart == 0 then
        t.(windowStart := if t.windowStart == 0 then ws else t.windowStart, markStart := wallclock)
      else
        UpdateTaskDemand(t, ws, ExecScale(s), idle, ev, isCurr, wallclock, cfg)
          .(windowStart := ws, markStart := wallclock)
  }

  // lse_cpu_util
  function CpuUtil(rq: Rq): int {
    var shift := Max(rq.prevWindowSize, 1) / CAPACITY_SCALE;
    if shift == 0 then 0 else U16(rq.prevSum / shift)
  }

  // ----- local facts used by every run-level result -----

  // What update_window_start leaves: the last boundary not after the clock, counters rolled over once.
  predicate Advanced(rq: Rq, r: Rq, wallclock: int, window: int) {
    && r.latestClock == wallclock
    && rq.windowStart <= r.windowStart <= wallclock < r.windowStart + window
    && r.execScale == rq.execScale
    && if r.windowStart == rq.windowStart then
         r == rq.(latestClock := wallclock)
       else
         && (r.windowStart == rq.windowStart + window || rq.windowStart + 2 * window <= r.windowStart)
         && r.prevWindowSize == window
         && r.currSum == 0
         && r.prevSum == if r.windowStart == rq.windowStart + window then rq.currSum else 0
  }

  /** update_window_start advances by whole windows to the window of the clock. */
  lemma WindowStartAdvance(rq: Rq, wallclock: int, window: int) returns (n: nat)
    requires window > 0 && rq.latestClock <= wallclock && rq.windowStart <= wallclock
    ensures Advanced(rq, UpdateWindowStart(rq, wallclock, window), wallclock, window)
    ensures UpdateWindowStart(rq, wallclock, window).windowStart == rq.windowStart + n * window
  {
    var delta := wallclock - rq.windowStart;
    n := Whole(delta, window);
    MulSign(n, window);
    MulSign(n - 1, window);
    MulSign(n - 2, window);
    assert (n - 1) * window == n * window - window;
    assert (n - 2) * window == n * window - 2 * window;
  }

  /** 1 <= scale <= 1024 whenever frequency and capacity are within their limits; it is exactly
      1024 (no scaling) iff the CPU runs above 1023/1024 of the top speed of the largest core. */
  lemma ExecScaleRange(s: Speed)
    requires s.curFreq <= s.maxFreq && s.capacity <= CAPACITY_SCALE
    ensures 1 <= ExecScale(s) <= CAPACITY_SCALE
    ensures s.maxFreq > 0 ==> (ExecScale(s) == CAPACITY_SCALE <==> s.curFreq * s.capacity > 1023 * s.maxFreq)
  {
    if s.maxFreq > 0 {
      var x, m := s.curFreq * s.capacity, s.maxFreq;
      MulMonotone(s.curFreq, m, s.capacity);
      MulMonotone(s.capacity, CAPACITY_SCALE, m);
      assert x <= CAPACITY_SCALE * m;
      var q := (x + (m - 1)) / m;
      DivBounds(x + (m - 1), m);
      assert (q - CAPACITY_SCALE) * m == q * m - CAPACITY_SCALE * m;
      MulSign(q - CAPACITY_SCALE, m);
    }
  }

  /** The scale is the frequency's share of the capacity, rounded up and at least 1; without a maximum frequency it is
      the capacity. */
  lemma ExecScaleIsCeiling(s: Speed)
    ensures s.maxFreq > 0 ==> s.curFreq * s.capacity <= ExecScale(s) * s.maxFreq
    ensures s.maxFreq > 0 && ExecScale(s) > 1 ==> (ExecScale(s) - 1) * s.maxFreq < s.curFreq * s.capacity
    ensures s.maxFreq == 0 ==> ExecScale(s) == if s.capacity == 0 then 1 else s.capacity
    ensures 1 <= ExecScale(s)
  {
    if s.maxFreq > 0 {
      var x, m := s.curFreq * s.capacity + (s.maxFreq - 1), s.maxFreq;
      DivBounds(x, m);
      MulMonotone(x / m, ExecScale(s), m);
      assert (x / m - 1) * m == (x / m) * m - m;
    }
  }

  /** A clock that ran backwards, on its own or against the window, counts as the latest instant known. */
  lemma ClockRepaired(rq: Rq, wallclock: int, window: int) returns (clock: int)
    requires window > 0
    ensures wallclock <= clock && rq.latestClock <= clock && rq.windowStart <= clock
    ensures clock in {wallclock, rq.latestClock, rq.windowStart}
    ensures UpdateWindowStart(rq, wallclock, window) == UpdateWindowStart(rq, clock, window)
    ensures Advanced(rq, UpdateWindowStart(rq, wallclock, window), clock, window)
  {
    clock := Max(Max(wallclock, rq.latestClock), rq.windowStart);
    var _ := WindowStartAdvance(rq, clock, window);
  }

  /** Of the current task the same events are accounted to the CPU and to the task, an interrupt's update alone
      excepted; a task that wakes, migrates or is only now picked has not run, nor has one updated elsewhere. */
  lemma AccountedEvents(idle: bool, ev: Event, isCurr: bool)
    ensures BusyForCpu(idle, ev) <==> BusyForDemand(idle, ev, true) && !ev.IrqUpdate?
    ensures ev.TaskWake? || ev.TaskMigrate? || ev.PickNextTask? || idle || (ev.TaskUpdate? && !isCurr) ==>
              !BusyForDemand(idle, ev, isCurr)
    ensures !idle && (ev.PutPrevTask? || ev.IrqUpdate? || (ev.TaskUpdate? && isCurr)) ==> BusyForDemand(idle, ev, isCurr)
  {
  }

  /** Before the first tick has seeded the windows, and at an instant already accounted, an event changes nothing. */
  lemma NothingAccounted(rq: Rq, t: Task, idle: bool, ev: Event, isCurr: bool, wallclock: int, s: Speed, cfg: Config)
    requires ValidConfig(cfg) && (rq.windowStart == 0 || t.markStart == wallclock)
    ensures RavgRq(rq, t, idle, ev, wallclock, s, cfg) == rq && RavgTask(rq, t, idle, ev, isCurr, wallclock, s, cfg) == t
  {
  }
}
