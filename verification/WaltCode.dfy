/**
 The tracker as lse_util_track.c and lse_cfs.c run it: records updated in place, the sample ring
 filled by a loop, the global rollover mark advanced by compare-and-swap. Every method is proved to
 compute the functions of WaltModel.
 */
module WaltCode {
  import opened Arith
  import opened WaltModel
  import opened Samples

  // atomic64_t
  class Atomic {
    var value: int

    constructor (v: int)
      ensures value == v
    {
      value := v;
    }

    // atomic64_cmpxchg
    method Cmpxchg(expected: int, desired: int) returns (seen: int)
      modifies this
      ensures seen == old(value)
      ensures value == if seen == expected then desired else old(value)
    {
      seen := value;
      if value == expected {
        value := desired;
      }
    }
  }

  // struct lse_rq
  class LseRq {
    var windowStart: int
    var latestClock: int
    var prevWindowSize: int
    var taskExecScale: int
    var prevRunnableSum: int
    var currRunnableSum: int

    // lse_sched_init_rq
    constructor (window: int)
      ensures View() == Rq(0, 0, window, CAPACITY_SCALE, 0, 0)
    {
      windowStart, latestClock := 0, 0;
      prevWindowSize, taskExecScale := window, CAPACITY_SCALE;
      prevRunnableSum, currRunnableSum := 0, 0;
    }

    function View(): Rq
      reads this
    {
      Rq(windowStart, latestClock, prevWindowSize, taskExecScale, prevRunnableSum, currRunnableSum)
    }

    method RolloverCpuWindow(fullWindow: bool)
      modifies this
      ensures View() == Rollover(old(View()), fullWindow)
    {
      var currSum := currRunnableSum;
      if fullWindow {
        currSum := 0;
      }
      prevRunnableSum := currSum;
      currRunnableSum := 0;
    }

    method UpdateWindowStart(clock: int, window: int) returns (oldWindowStart: int)
      requires window > 0
      modifies this
      ensures oldWindowStart == old(windowStart)
      ensures View() == WaltModel.UpdateWindowStart(old(View()), clock, window)
    {
      oldWindowStart := windowStart;
      var wallclock := clock;
      if wallclock < latestClock {
        wallclock := latestClock;
      }
      var delta := wallclock - windowStart;
      if delta < 0 {
        delta := 0;
        wallclock := windowStart;
      }
      latestClock := wallclock;
      if delta < window {
        return;
      }
      var nrWindows := delta / window;
      windowStart := windowStart + nrWindows * window;
      prevWindowSize := window;
      RolloverCpuWindow(nrWindows > 1);
    }

    method UpdateTaskRqCpuCycles(s: Speed)
      modifies this`taskExecScale
      ensures taskExecScale == ExecScale(s)
    {
      var scale;
      if s.maxFreq == 0 {
        scale := s.capacity;
      } else {
        scale := (s.curFreq * s.capacity + (s.maxFreq - 1)) / s.maxFreq;
      }
      taskExecScale := Max(1, scale);
    }

    method UpdateCpuBusyTime(mark: int, idle: bool, ev: Event, wallclock: int)
      modifies this
      ensures windowStart == old(windowStart) && taskExecScale == old(taskExecScale)
      ensures View() == WaltModel.UpdateCpuBusyTime(old(View()), mark, idle, ev, wallclock)
    {
      var newWindow := mark < windowStart;
      var fullWindow := newWindow && windowStart - mark >= prevWindowSize;
      if !BusyForCpu(idle, ev) {
        return;
      }
      if !newWindow {
        currRunnableSum := currRunnableSum + Scale(wallclock - mark, taskExecScale);
        return;
      }
      var delta := if fullWindow then Scale(prevWindowSize, taskExecScale)
                   else Scale(windowStart - mark, taskExecScale);
      prevRunnableSum := prevRunnableSum + delta;
      currRunnableSum := currRunnableSum + Scale(wallclock - windowStart, taskExecScale);
    }

    // lse_cpu_util
    method LseCpuUtil() returns (util: int)
      ensures util == CpuUtil(View())
    {
      var shift := Max(prevWindowSize, 1) / CAPACITY_SCALE;
      if shift == 0 {
        return 0;
      }
      util := U16(prevRunnableSum / shift);
    }
  }

  // The ring read from its write position: oldest sample first.
  function Unrolled(ring: seq<int>, at: nat): (s: seq<int>)
    requires at <= |ring|
    ensures |s| == |ring|
  {
    ring[at..] + ring[..at]
  }

  /** Overwriting the oldest slot and moving on drops the oldest sample and appends the new one. */
  lemma RingPush(ring: seq<int>, at: nat, v: int)
    requires |ring| == HIST_SIZE && at < HIST_SIZE
    ensures Unrolled(ring[at := v], (at + 1) % HIST_SIZE) == Unrolled(ring, at)[1..] + [v]
  {
  }

  lemma RingPushMany(s: seq<int>, v: int, n: nat)
    requires |s| == HIST_SIZE
    ensures LastN(s + Repeat(v, n), HIST_SIZE)[1..] + [v] == LastN(s + Repeat(v, n + 1), HIST_SIZE)
  {
    assert s + Repeat(v, n + 1) == (s + Repeat(v, n)) + [v];
  }

  lemma RingTotals(ring: seq<int>, at: nat)
    requires at <= |ring|
    ensures SumOf(ring) == SumOf(Unrolled(ring, at)) && MaxOf(ring) == MaxOf(Unrolled(ring, at))
  {
    assert ring == ring[..at] + ring[at..];
    SumOfAppend(ring[..at], ring[at..]);
    SumOfAppend(ring[at..], ring[..at]);
    MaxOfAppend(ring[..at], ring[at..]);
    MaxOfAppend(ring[at..], ring[..at]);
  }

  // struct lse_task_struct, the tracking fields
  class LseTask {
    var markStart: int
    var windowStart: int
    var sum: int
    const sumHistory: array<int>
    var cidx: nat
    var demand: int
    var demandScaled: int

    // init_lse_task_struct
    constructor ()
      ensures Valid() && fresh(sumHistory)
      ensures View() == Task(0, 0, 0, Zeros(), 0, 0)
    {
      markStart, windowStart, sum, cidx, demand, demandScaled := 0, 0, 0, 0, 0, 0;
      sumHistory := new int[HIST_SIZE](_ => 0);
      new;
      assert Unrolled(sumHistory[..], 0) == Zeros();
    }

    ghost predicate Valid()
      reads this
    {
      sumHistory.Length == HIST_SIZE && cidx < HIST_SIZE
    }

    ghost function View(): Task
      reads this, sumHistory
      requires Valid()
    {
      Task(markStart, windowStart, sum, Unrolled(sumHistory[..], cidx), demand, demandScaled)
    }

    method PushSamples(runtime: int, samples: nat)
      requires Valid()
      modifies this`cidx, sumHistory
      ensures Valid()
      ensures Unrolled(sumHistory[..], cidx)
           == LastN(old(Unrolled(sumHistory[..], cidx)) + Repeat(runtime, samples), HIST_SIZE)
    {
      ghost var before := Unrolled(sumHistory[..], cidx);
      var left := samples;
      assert before + Repeat(runtime, 0) == before;
      while left > 0
        invariant 0 <= left <= samples && Valid()
        invariant Unrolled(sumHistory[..], cidx) == LastN(before + Repeat(runtime, samples - left), HIST_SIZE)
      {
        RingPush(sumHistory[..], cidx, runtime);
        RingPushMany(before, runtime, samples - left);
        sumHistory[cidx] := runtime;
        cidx := (cidx + 1) % HIST_SIZE;
        left := left - 1;
      }
    }

    method RingSummary() returns (total: int, top: int)
      requires Valid()
      ensures total == SumOf(View().samples) && top == MaxOf(View().samples)
    {
      total, top := 0, 0;
      var i := 0;
      while i < HIST_SIZE
        invariant 0 <= i <= HIST_SIZE
        invariant total == SumOf(sumHistory[..i]) && top == MaxOf(sumHistory[..i])
      {
        assert sumHistory[..i + 1][..i] == sumHistory[..i];
        total := total + sumHistory[i];
        if sumHistory[i] > top {
          top := sumHistory[i];
        }
        i := i + 1;
      }
      assert sumHistory[..HIST_SIZE] == sumHistory[..];
      RingTotals(sumHistory[..], cidx);
    }

    method UpdateHistory(idle: bool, runtime: int, samples: nat, cfg: Config)
      requires Valid() && ValidConfig(cfg)
      modifies this, sumHistory
      ensures Valid()
      ensures View() == WaltModel.UpdateHistory(old(View()), idle, runtime, samples, cfg)
    {
      if runtime == 0 || idle || samples == 0 {
        return;
      }
      PushSamples(runtime, samples);
      var total, top := RingSummary();
      sum := 0;
      var avg := total / HIST_SIZE;
      match cfg.policy {
        case 0 => demand := runtime;
        case 1 => demand := top;
        case 3 => demand := avg;
        case _ => demand := Max(avg, runtime);
      }
      demandScaled := U16(demand / cfg.divisor);
    }

    method AddToTaskDemand(delta: int, scale: int, window: int) returns (scaled: int)
      requires Valid()
      modifies this`sum
      ensures Valid() && scaled == Scale(delta, scale)
      ensures View() == WaltModel.AddToTaskDemand(old(View()), delta, scale, window)
    {
      scaled := Scale(delta, scale);
      sum := U32(sum + scaled);
      if sum > window {
        sum := window;
      }
    }

    method UpdateTaskDemand(rq: LseRq, idle: bool, ev: Event, isCurr: bool, wallclock: int, cfg: Config)
      returns (runtime: int)
      requires Valid() && ValidConfig(cfg)
      modifies this, sumHistory
      ensures Valid() && markStart == old(markStart)
      ensures View() == WaltModel.UpdateTaskDemand(old(View()), rq.windowStart, rq.taskExecScale, idle, ev,
                                                   isCurr, wallclock, cfg)
      ensures runtime == DemandRuntime(old(markStart), rq.windowStart, rq.taskExecScale,
                                       BusyForDemand(idle, ev, isCurr), wallclock, cfg.window)
    {
      var ws := rq.windowStart;
      var newWindow := markStart < ws;
      if !BusyForDemand(idle, ev, isCurr) {
        if newWindow {
          UpdateHistory(idle, sum, 1, cfg);
        }
        return 0;
      }
      if !newWindow {
        runtime := AddToTaskDemand(wallclock - markStart, rq.taskExecScale, cfg.window);
        return;
      }
      runtime := CrossWindows(ws, rq.taskExecScale, idle, wallclock, cfg);
    }

    // The part of update_task_demand for busy time that spans at least two windows.
    method CrossWindows(end: int, scale: int, idle: bool, wallclock: int, cfg: Config) returns (runtime: int)
      requires Valid() && ValidConfig(cfg) && markStart < end
      modifies this, sumHistory
      ensures Valid()
      ensures View() == WaltModel.CrossWindows(old(View()), end, scale, idle, wallclock, cfg)
      ensures runtime == DemandRuntime(old(markStart), end, scale, true, wallclock, cfg.window)
    {
      var ws := end;
      var nrFullWindows := Whole(ws - markStart, cfg.window);
      ws := ws - nrFullWindows * cfg.window;
      runtime := AddToTaskDemand(ws - markStart, scale, cfg.window);
      UpdateHistory(idle, sum, 1, cfg);
      if nrFullWindows != 0 {
        var scaledWindow := Scale(cfg.window, scale);
        UpdateHistory(idle, U32(scaledWindow), nrFullWindows, cfg);
        runtime := runtime + nrFullWindows * scaledWindow;
      }
      ws := ws + nrFullWindows * cfg.window;
      var rest := AddToTaskDemand(wallclock - ws, scale, cfg.window);
      runtime := runtime + rest;
    }
  }

  // The rollover mark after a CPU whose window start went from one value to another took part in the election.
  function Elected(mark: int, from: int, to: int): int {
    if from != to && mark == from then to else mark
  }

  /** One CPU's turn in the rollover election, proved to be a step of that protocol in WaltElection: it wins iff its window moved and the global mark still
      holds the window start it moved from. */
  method WindowRolloverRunOnce(oldWindowStart: int, rq: LseRq, last: Atomic) returns (queued: bool)
    modifies last
    ensures queued <==> oldWindowStart != rq.windowStart && old(last.value) == oldWindowStart
    ensures if queued then last.value == rq.windowStart else last.value == old(last.value)
    ensures last.value == Elected(old(last.value), oldWindowStart, rq.windowStart)
  {
    if oldWindowStart == rq.windowStart {
      return false;
    }
    var result := last.Cmpxchg(oldWindowStart, rq.windowStart);
    queued := result == oldWindowStart;
  }

  /** lse_update_task_ravg with slim_walt_ctrl on: both records become what the model says, and the
      rollover work is queued iff this update wins the election for the window it entered. */
  method LseUpdateTaskRavg(lts: LseTask, rq: LseRq, last: Atomic, idle: bool, ev: Event, isCurr: bool,
                           wallclock: int, s: Speed, cfg: Config)
    returns (queued: bool)
    requires lts.Valid() && ValidConfig(cfg)
    modifies lts, lts.sumHistory, rq, last
    ensures lts.Valid()
    ensures rq.View() == RavgRq(old(rq.View()), old(lts.View()), idle, ev, wallclock, s, cfg)
    ensures lts.View() == RavgTask(old(rq.View()), old(lts.View()), idle, ev, isCurr, wallclock, s, cfg)
    ensures queued <==> old(rq.windowStart) != rq.windowStart && old(last.value) == old(rq.windowStart)
    ensures last.value == Elected(old(last.value), old(rq.windowStart), rq.windowStart)
  {
    hide WaltModel.UpdateTaskDemand, WaltModel.UpdateCpuBusyTime, WaltModel.UpdateWindowStart, ExecScale, DemandRuntime,
         Unrolled, BusyForDemand;
    if rq.windowStart == 0 || lts.markStart == wallclock {
      return false;
    }
    var oldWindowStart := rq.UpdateWindowStart(wallclock, cfg.window);
    if lts.windowStart == 0 {
      lts.windowStart := rq.windowStart;
    }
    if lts.markStart != 0 {
      ghost var t := lts.View();
      assert t == old(lts.View()).(windowStart := t.windowStart);
      rq.UpdateTaskRqCpuCycles(s);
      var _ := lts.UpdateTaskDemand(rq, idle, ev, isCurr, wallclock, cfg);
      ghost var t1 := lts.View();
      rq.UpdateCpuBusyTime(lts.markStart, idle, ev, wallclock);
      lts.windowStart := rq.windowStart;
      assert lts.View() == t1.(windowStart := rq.windowStart);
      DemandIgnoresWindowStart(old(lts.View()), t.windowStart, rq.windowStart, rq.taskExecScale, idle, ev, isCurr,
                               wallclock, cfg);
    }
    lts.markStart := wallclock;
    queued := WindowRolloverRunOnce(oldWindowStart, rq, last);
  }

  /** lts->window_start is stored, never read, by the demand update. */
  lemma DemandIgnoresWindowStart(t: Task, w: int, ws: int, scale: int, idle: bool, ev: Event, isCurr: bool,
                                 wallclock: int, cfg: Config)
    requires ValidConfig(cfg)
    ensures UpdateTaskDemand(t.(windowStart := w), ws, scale, idle, ev, isCurr, wallclock, cfg).(windowStart := ws)
         == UpdateTaskDemand(t, ws, scale, idle, ev, isCurr, wallclock, cfg).(windowStart := ws)
  {
    hide Demand, Scale;
  }

  /** The accounting of lse_schedule. A switch puts the old task and picks the new one; each reads rq->clock for
      itself, as putClock and pickClock, and never lets the CPU's clock run backwards. Staying on the same
      task is one update. */
  method LseSchedule(prev: LseTask, next: LseTask, rq: LseRq, last: Atomic, prevIdle: bool, nextIdle: bool,
                     putClock: int, pickClock: int, put: Speed, pick: Speed, cfg: Config)
    requires prev.Valid() && next.Valid() && ValidConfig(cfg)
    requires prev != next ==> prev.sumHistory != next.sumHistory
    requires prev == next ==> prevIdle == nextIdle
    modifies prev, prev.sumHistory, next, next.sumHistory, rq, last
    ensures prev.Valid() && next.Valid()
    ensures var rq0, p, n := old(rq.View()), old(prev.View()), old(next.View());
            var at := Max(putClock, rq0.latestClock);
            if prev == next then
              && prev.View() == RavgTask(rq0, p, prevIdle, TaskUpdate, true, at, put, cfg)
              && rq.View() == RavgRq(rq0, p, prevIdle, TaskUpdate, at, put, cfg)
              && last.value == Elected(old(last.value), rq0.windowStart, rq.windowStart)
            else
              var rq1 := RavgRq(rq0, p, prevIdle, PutPrevTask, at, put, cfg);
              var at' := Max(pickClock, rq1.latestClock);
              && prev.View() == RavgTask(rq0, p, prevIdle, PutPrevTask, true, at, put, cfg)
              && rq.View() == RavgRq(rq1, n, nextIdle, PickNextTask, at', pick, cfg)
              && next.View() == RavgTask(rq1, n, nextIdle, PickNextTask, false, at', pick, cfg)
              && last.value == Elected(Elected(old(last.value), rq0.windowStart, rq1.windowStart),
                                       rq1.windowStart, rq.windowStart)
  {
    hide RavgRq, RavgTask, Elected;
    var at := Max(putClock, rq.latestClock);
    if prev == next {
      var _ := LseUpdateTaskRavg(prev, rq, last, prevIdle, TaskUpdate, true, at, put, cfg);
    } else {
      var _ := LseUpdateTaskRavg(prev, rq, last, prevIdle, PutPrevTask, true, at, put, cfg);
      at := Max(pickClock, rq.latestClock);
      var _ := LseUpdateTaskRavg(next, rq, last, nextIdle, PickNextTask, false, at, pick, cfg);
    }
  }

  /** lse_tick_entry without its call into the governor. */
  method LseTickEntry(curr: LseTask, rq: LseRq, last: Atomic, idle: bool, clock: int, s: Speed, cfg: Config)
    requires curr.Valid() && ValidConfig(cfg)
    modifies curr, curr.sumHistory, rq, last
    ensures curr.Valid()
    ensures var at := Max(clock, old(rq.latestClock));
            && rq.View() == RavgRq(old(rq.View()), old(curr.View()), idle, TaskUpdate, at, s, cfg)
            && curr.View() == RavgTask(old(rq.View()), old(curr.View()), idle, TaskUpdate, true, at, s, cfg)
    ensures last.value == Elected(old(last.value), old(rq.windowStart), rq.windowStart)
  {
    hide RavgRq, RavgTask;
    var at := Max(clock, rq.latestClock);
    var _ := LseUpdateTaskRavg(curr, rq, last, idle, TaskUpdate, true, at, s, cfg);
  }

  /** lse_scheduler_tick: the one tick that wins the exchange on tick_sched_clock seeds every CPU's window
      start and the rollover mark with an instant 20 us back; every other tick changes nothing. */
  method LseSchedulerTick(cpus: seq<LseRq>, tickSchedClock: Atomic, last: Atomic, clock: int) returns (seeded: bool)
    requires tickSchedClock != last
    requires forall i, j :: 0 <= i < j < |cpus| ==> cpus[i] != cpus[j]
    modifies cpus, tickSchedClock, last
    ensures seeded <==> old(tickSchedClock.value) == 0
    ensures !seeded ==> last.value == old(last.value) && tickSchedClock.value == old(tickSchedClock.value)
    ensures seeded ==> last.value == tickSchedClock.value == clock - 20000
    ensures forall i :: 0 <= i < |cpus| ==>
              cpus[i].View() == if seeded then old(cpus[i].View()).(windowStart := clock - 20000) else old(cpus[i].View())
  {
    seeded := false;
    if tickSchedClock.value == 0 {
      var seen := tickSchedClock.Cmpxchg(0, clock - 20000);
      if seen != 0 {
        return;
      }
      seeded := true;
      var c := 0;
      while c < |cpus|
        invariant 0 <= c <= |cpus| && tickSchedClock.value == clock - 20000
        invariant forall i :: 0 <= i < |cpus| ==>
                    cpus[i].View() == if i < c then old(cpus[i].View()).(windowStart := clock - 20000)
                                      else old(cpus[i].View())
      {
        cpus[c].windowStart := tickSchedClock.value;
        c := c + 1;
      }
      last.value := tickSchedClock.value;
    }
  }

  // lse_sched_ravg_window, new_lse_sched_ravg_window and the frame rate the latter was asked with
  class WindowSize {
    var window: int
    var newWindow: int
    var framePerSec: int

    constructor (w: int, rate: int)
      ensures window == w && newWindow == w && framePerSec == rate
    {
      window, newWindow, framePerSec := w, w, rate;
    }

    /** sched_ravg_window_change: C division truncates, and the quotient is stored into an unsigned int. At a
        frame rate of 0 the division has no result, and nothing is stored. */
    method Change(rate: int) returns (divided: bool)
      modifies this`newWindow
      ensures divided <==> rate != 0
      ensures newWindow == if WindowForFrames(rate).Some? then WindowForFrames(rate).value else old(newWindow)
    {
      divided := rate != 0;
      if divided {
        var size := if rate > 0 then NSEC_PER_SEC / rate else -(NSEC_PER_SEC / -rate);
        newWindow := U32(size);
      }
    }

    /** The write handler of the frame-rate sysctl: a rate that is not the one in force is stored and passed on,
        whatever it is. The division fails iff the rate is a new 0. */
    method WriteFrameRate(rate: int) returns (ok: bool)
      modifies this`newWindow, this`framePerSec
      ensures framePerSec == rate
      ensures !ok <==> rate == 0 && old(framePerSec) != 0
      ensures newWindow == if rate != old(framePerSec) && WindowForFrames(rate).Some?
                           then WindowForFrames(rate).value else old(newWindow)
    {
      ok := true;
      if rate == framePerSec {
        return;
      }
      framePerSec := rate;
      ok := Change(rate);
    }
  }

  const NSEC_PER_SEC := 1_000_000_000

  // NSEC_PER_SEC / f as an unsigned int, where C defines it.
  function WindowForFrames(f: int): Option<int> {
    if f == 0 then None
    else Some(U32(if f > 0 then NSEC_PER_SEC / f else -(NSEC_PER_SEC / -f)))
  }

  /** A frame rate asks for a window of at least 1 ns exactly when it is not 0 and its magnitude is at most
      10^9; beyond that it asks for a window of 0, which lse_irq_work never adopts, and at 0 it divides by
      zero. The window is a second over the rate, cut down; a negative rate gives 2^32 less that. */
  lemma UsableWindow(f: int)
    ensures WindowForFrames(f) == None <==> f == 0
    ensures WindowForFrames(f) == Some(0) <==> f < -NSEC_PER_SEC || NSEC_PER_SEC < f
    ensures f != 0 ==> 0 <= WindowForFrames(f).value < 0x1_0000_0000
    ensures 0 < f ==> var w := WindowForFrames(f).value; w * f <= 1_000_000_000 < w * f + f
    ensures -NSEC_PER_SEC <= f < 0 ==>
              var w := 0x1_0000_0000 - WindowForFrames(f).value; w * -f <= 1_000_000_000 < w * -f + -f
  {
    if f != 0 {
      var m := if f > 0 then f else -f;
      var q := NSEC_PER_SEC / m;
      DivBounds(NSEC_PER_SEC, m);
      MulSign(q, m);
      MulMonotone(1, m, Max(q, 0));
    }
  }

  /** lse_irq_work: account the running task, then adopt a pending window size if this CPU's clock
      still lies inside a window of that size. */
  method LseIrqWork(curr: LseTask, rq: LseRq, last: Atomic, size: WindowSize, idle: bool, wallclock: int,
                    s: Speed, policy: int, divisor: int)
    requires curr.Valid() && ValidConfig(Config(size.window, policy, divisor))
    modifies curr, curr.sumHistory, rq, last, size`window
    ensures curr.Valid()
    ensures var cfg := Config(old(size.window), policy, divisor);
            && rq.View() == RavgRq(old(rq.View()), old(curr.View()), idle, TaskUpdate, wallclock, s, cfg)
            && curr.View() == RavgTask(old(rq.View()), old(curr.View()), idle, TaskUpdate, true, wallclock, s, cfg)
    ensures last.value == Elected(old(last.value), old(rq.windowStart), rq.windowStart)
    ensures size.window == if wallclock < rq.windowStart + size.newWindow then size.newWindow else old(size.window)
  {
    hide RavgRq, RavgTask;
    var cfg := Config(size.window, policy, divisor);
    var _ := LseUpdateTaskRavg(curr, rq, last, idle, TaskUpdate, true, wallclock, s, cfg);
    if size.newWindow != size.window {
      if wallclock < rq.windowStart + size.newWindow {
        size.window := size.newWindow;
      }
    }
  }
}
