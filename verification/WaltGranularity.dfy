/**
 What extra TASK_UPDATEs (ticks, the shadow tick) of a running task change: nothing at full speed, and
 nothing at window boundaries at any constant scale. Elsewhere each one costs at most one unit of
 accounted time. On the CPU and in the task's running sum that is all; a unit lost from a window that is
 then closed lowers one sample of the task's history by one, or leaves it out altogether if it was one.
 */
module WaltGranularity {
  import opened Arith
  import opened WaltModel
  import opened Samples
  import opened WindowGrid
  import opened WaltBounds

  // A task running on a CPU, as every reachable state has it.
  predicate Running(rq: Rq, t: Task, cfg: Config, s0: int) {
    && ValidConfig(cfg) && 0 < s0
    && CpuWindowed(rq, cfg.window) && OnGrid(s0, cfg.window, rq.windowStart)
    && rq.prevWindowSize == cfg.window
    && TaskBounded(t, s0, cfg.window)
    && 0 != t.markStart == Upto(rq)
  }

  function UpdRq(rq: Rq, t: Task, time: int, s: Speed, cfg: Config): Rq
    requires ValidConfig(cfg)
  {
    RavgRq(rq, t, false, TaskUpdate, time, s, cfg)
  }

  function UpdTask(rq: Rq, t: Task, time: int, s: Speed, cfg: Config): Task
    requires ValidConfig(cfg)
  {
    RavgTask(rq, t, false, TaskUpdate, true, time, s, cfg)
  }

  lemma UpdKeepsRunning(rq: Rq, t: Task, time: int, s: Speed, cfg: Config, s0: int)
    requires Running(rq, t, cfg, s0) && ScaleOk(s) && t.markStart <= time
    ensures Running(UpdRq(rq, t, time, s, cfg), UpdTask(rq, t, time, s, cfg), cfg, s0)
    ensures UpdTask(rq, t, time, s, cfg).markStart == time
  {
    hide RavgTask;
    TaskStepBounded(rq, t, false, TaskUpdate, true, time, s, cfg, s0);
    if t.markStart != time {
      var n := WindowStartAdvance(rq, time, cfg.window);
      GridStep(s0, cfg.window, rq.windowStart, n);
    }
  }

  /** One update in grid terms: the window start it leaves is the last boundary not after it. */
  lemma UpdOnGrid(rq: Rq, t: Task, time: int, s: Speed, cfg: Config, s0: int)
    requires Running(rq, t, cfg, s0) && t.markStart < time
    ensures UpdTask(rq, t, time, s, cfg)
         == UpdateTaskDemand(t, Grid(s0, cfg.window, time), ExecScale(s), false, TaskUpdate, true, time, cfg)
              .(windowStart := Grid(s0, cfg.window, time), markStart := time)
    ensures UpdateWindowStart(rq, time, cfg.window).windowStart == Grid(s0, cfg.window, time)
    ensures Advanced(rq, UpdateWindowStart(rq, time, cfg.window), time, cfg.window)
    ensures rq.windowStart == Grid(s0, cfg.window, t.markStart)
  {
    hide UpdateTaskDemand;
    var n := WindowStartAdvance(rq, time, cfg.window);
    GridStep(s0, cfg.window, rq.windowStart, n);
    GridUnique(s0, cfg.window, UpdateWindowStart(rq, time, cfg.window).windowStart, time);
    GridUnique(s0, cfg.window, rq.windowStart, t.markStart);
  }

  // ----- CPU counters -----

  /** The CPU half at a window boundary: exact for any constant scale. */
  lemma BoundarySplitCpu(rq: Rq, t: Task, mid: int, time: int, s: Speed, cfg: Config, s0: int)
    requires Running(rq, t, cfg, s0) && ScaleOk(s)
    requires t.markStart < mid < time && OnGrid(s0, cfg.window, mid)
    ensures UpdRq(UpdRq(rq, t, mid, s, cfg), UpdTask(rq, t, mid, s, cfg), time, s, cfg)
         == UpdRq(rq, t, time, s, cfg)
  {
    hide RavgTask, UpdateTaskDemand;
    UpdKeepsRunning(rq, t, mid, s, cfg, s0);
    UpdOnGrid(rq, t, mid, s, cfg, s0);
    UpdOnGrid(rq, t, time, s, cfg, s0);
    UpdOnGrid(UpdRq(rq, t, mid, s, cfg), UpdTask(rq, t, mid, s, cfg), time, s, cfg, s0);
    GridUnique(s0, cfg.window, mid, mid);
    BoundaryOrder(s0, cfg.window, Index(s0, cfg.window, time), Index(s0, cfg.window, mid));
    BoundaryOrder(s0, cfg.window, Index(s0, cfg.window, mid), Index(s0, cfg.window, t.markStart));
    BoundaryOrder(s0, cfg.window, Index(s0, cfg.window, t.markStart), Index(s0, cfg.window, mid));
    BoundaryOrder(s0, cfg.window, Index(s0, cfg.window, mid), Index(s0, cfg.window, time));
    ScaleZero(ExecScale(s));
  }

  /** The CPU half anywhere: each counter loses at most one unit, and the two together lose at most one. */
  lemma SplitCpuLoss(rq: Rq, t: Task, mid: int, time: int, s: Speed, cfg: Config, s0: int)
    requires Running(rq, t, cfg, s0) && ScaleOk(s) && t.markStart < mid < time
    ensures var one := UpdRq(rq, t, time, s, cfg);
            var two := UpdRq(UpdRq(rq, t, mid, s, cfg), UpdTask(rq, t, mid, s, cfg), time, s, cfg);
            && one.windowStart == two.windowStart && one.latestClock == two.latestClock
            && one.prevWindowSize == two.prevWindowSize && one.execScale == two.execScale
            && two.prevSum <= one.prevSum && two.currSum <= one.currSum
            && one.prevSum + one.currSum - 1 <= two.prevSum + two.currSum
            && (ExecScale(s) == CAPACITY_SCALE ==> one == two)
  {
    hide RavgTask, UpdateTaskDemand;
    var window, scale, mark := cfg.window, ExecScale(s), t.markStart;
    UpdKeepsRunning(rq, t, mid, s, cfg, s0);
    UpdOnGrid(rq, t, mid, s, cfg, s0);
    UpdOnGrid(rq, t, time, s, cfg, s0);
    UpdOnGrid(UpdRq(rq, t, mid, s, cfg), UpdTask(rq, t, mid, s, cfg), time, s, cfg, s0);
    SplitCpuPieces(rq, UpdateWindowStart(rq, mid, window), UpdateWindowStart(rq, time, window),
                   UpdateWindowStart(UpdRq(rq, t, mid, s, cfg), time, window),
                   mark, mid, time, scale, cfg, s0);
  }

  // The CPU record when an update's busy time is added to an advanced window.
  function Busy(r: Rq, mark: int, time: int, scale: int): Rq {
    UpdateCpuBusyTime(r.(execScale := scale), mark, false, TaskUpdate, time)
  }

  predicate LosesAtMostOne(b: Rq, p: Rq, scale: int) {
    && b.windowStart == p.windowStart && b.latestClock == p.latestClock
    && b.prevWindowSize == p.prevWindowSize && b.execScale == p.execScale
    && p.prevSum <= b.prevSum && p.currSum <= b.currSum
    && b.prevSum + b.currSum - 1 <= p.prevSum + p.currSum
    && (scale == CAPACITY_SCALE ==> b == p)
  }

  lemma SplitCpuPieces(rq: Rq, r1: Rq, one: Rq, r2: Rq, mark: int, mid: int, time: int, scale: int,
                       cfg: Config, s0: int)
    requires ValidConfig(cfg) && 1 <= scale <= CAPACITY_SCALE && 0 < s0
    requires CpuWindowed(rq, cfg.window) && rq.prevWindowSize == cfg.window && mark == Upto(rq) < mid < time
    requires s0 <= mark && rq.windowStart == Grid(s0, cfg.window, mark)
    requires Advanced(rq, r1, mid, cfg.window) && r1.windowStart == Grid(s0, cfg.window, mid)
    requires Advanced(rq, one, time, cfg.window) && one.windowStart == Grid(s0, cfg.window, time)
    requires Advanced(Busy(r1, mark, mid, scale), r2, time, cfg.window) && r2.windowStart == Grid(s0, cfg.window, time)
    ensures LosesAtMostOne(Busy(one, mark, time, scale), Busy(r2, mid, time, scale), scale)
  {
    hide Busy, LosesAtMostOne, Advanced;
    var window := cfg.window;
    var i, j, k := Index(s0, window, mark), Index(s0, window, mid), Index(s0, window, time);
    BoundaryOrder(s0, window, i, j);
    BoundaryOrder(s0, window, j, i);
    BoundaryOrder(s0, window, j, k);
    BoundaryOrder(s0, window, k, j);
    if i == j {
      SplitInWindow(rq, r1, one, r2, mark, mid, time, scale, window);
    } else {
      SplitAcross(rq, r1, one, r2, mark, mid, time, scale, window);
    }
  }

  lemma SplitInWindow(rq: Rq, r1: Rq, one: Rq, r2: Rq, mark: int, mid: int, time: int, scale: int, window: int)
    requires 0 < window && 1 <= scale <= CAPACITY_SCALE && rq.prevWindowSize == window
    requires CpuWindowed(rq, window) && mark == Upto(rq) < mid < time
    requires r1.windowStart == rq.windowStart && one.windowStart == r2.windowStart
    requires Advanced(rq, r1, mid, window) && Advanced(rq, one, time, window)
    requires Advanced(Busy(r1, mark, mid, scale), r2, time, window)
    ensures LosesAtMostOne(Busy(one, mark, time, scale), Busy(r2, mid, time, scale), scale)
  {
    var ws, ws2 := rq.windowStart, one.windowStart;
    var before := Scale(mid - mark, scale);
    hide Scale;
    ScaleIdentity(mid - mark);
    if ws2 == ws {
      ScaleSplit(mid - mark, time - mid, scale);
      ScaleIdentity(time - mid);
      ScaleIdentity(time - mark);
    } else {
      ScaleSplit(mid - mark, ws + window - mid, scale);
      ScaleIdentity(ws2 - mid);
      ScaleIdentity(ws2 - mark);
      ScaleIdentity(window);
    }
  }

  lemma SplitAcross(rq: Rq, r1: Rq, one: Rq, r2: Rq, mark: int, mid: int, time: int, scale: int, window: int)
    requires 0 < window && 1 <= scale <= CAPACITY_SCALE && rq.prevWindowSize == window
    requires CpuWindowed(rq, window) && mark == Upto(rq) < mid < time
    requires rq.windowStart < r1.windowStart && one.windowStart == r2.windowStart
    requires one.windowStart == r1.windowStart || r1.windowStart + window <= one.windowStart
    requires Advanced(rq, r1, mid, window) && Advanced(rq, one, time, window)
    requires Advanced(Busy(r1, mark, mid, scale), r2, time, window)
    ensures LosesAtMostOne(Busy(one, mark, time, scale), Busy(r2, mid, time, scale), scale)
  {
    var ws1, ws2 := r1.windowStart, one.windowStart;
    hide Scale;
    if ws2 == ws1 {
      ScaleSplit(mid - ws1, time - mid, scale);
      ScaleIdentity(mid - ws1);
      ScaleIdentity(time - mid);
      ScaleIdentity(time - ws1);
    } else {
      ScaleSplit(mid - ws1, ws1 + window - mid, scale);
      ScaleIdentity(mid - ws1);
      ScaleIdentity(ws2 - mid);
      ScaleIdentity(window);
    }
  }

  // ----- task record -----

  /** Pushing the same sample in two batches is pushing it in one. */
  lemma HistoryTwice(t: Task, runtime: int, m: nat, n: nat, cfg: Config)
    requires ValidConfig(cfg) && |t.samples| == HIST_SIZE && t.sum == 0
    ensures UpdateHistory(UpdateHistory(t, false, runtime, m, cfg), false, runtime, n, cfg)
         == UpdateHistory(t, false, runtime, m + n, cfg)
  {
    hide Demand;
    RepeatSplit(runtime, m, n);
    LastNAbsorbs(t.samples + Repeat(runtime, m), Repeat(runtime, n), HIST_SIZE);
    assert t.samples + (Repeat(runtime, m) + Repeat(runtime, n)) == (t.samples + Repeat(runtime, m)) + Repeat(runtime, n);
    assert Repeat(runtime, m) + Repeat(runtime, 0) == Repeat(runtime, m);
    assert Repeat(runtime, 0) + Repeat(runtime, n) == Repeat(runtime, n);
  }

  // The demand half of an update at time, in grid terms.
  function DemandAt(t: Task, time: int, scale: int, cfg: Config, s0: int): Task
    requires ValidConfig(cfg) && s0 <= time
  {
    UpdateTaskDemand(t, Grid(s0, cfg.window, time), scale, false, TaskUpdate, true, time, cfg)
      .(windowStart := Grid(s0, cfg.window, time), markStart := time)
  }

  predicate TaskReady(t: Task, cfg: Config, s0: int) {
    ValidConfig(cfg) && 0 < s0 && TaskBounded(t, s0, cfg.window) && t.markStart != 0
  }

  lemma DemandAtReady(t: Task, time: int, scale: int, cfg: Config, s0: int)
    requires TaskReady(t, cfg, s0) && t.markStart <= time && 1 <= scale <= CAPACITY_SCALE
    ensures TaskReady(DemandAt(t, time, scale, cfg, s0), cfg, s0)
    ensures DemandAt(t, time, scale, cfg, s0).markStart == time
  {
    hide CrossWindows, AddToTaskDemand;
    var ws := Grid(s0, cfg.window, time);
    BoundaryOnGrid(s0, cfg.window, Index(s0, cfg.window, time));
    if ws <= t.markStart {
      GridUnique(s0, cfg.window, ws, t.markStart);
      AddNoClamp(t, time - t.markStart, scale, cfg.window);
    } else {
      var _, _, _, _, _ := CrossPieces(t, ws, scale, time, cfg, s0);
    }
  }

  /** The task half at a window boundary: exact for any constant scale. */
  lemma BoundarySplitTask(t: Task, mid: int, time: int, scale: int, cfg: Config, s0: int)
    requires TaskReady(t, cfg, s0) && 1 <= scale <= CAPACITY_SCALE
    requires t.markStart < mid <= time && OnGrid(s0, cfg.window, mid)
    ensures DemandAt(DemandAt(t, mid, scale, cfg, s0), time, scale, cfg, s0) == DemandAt(t, time, scale, cfg, s0)
  {
    hide CrossWindows, AddToTaskDemand, UpdateHistory;
    var window := cfg.window;
    var ws := Grid(s0, window, time);
    BoundaryOnGrid(s0, window, Index(s0, window, time));
    BoundaryOrder(s0, window, Index(s0, window, mid), Index(s0, window, time));
    BoundaryOrder(s0, window, Index(s0, window, time), Index(s0, window, mid));
    DemandAtReady(t, mid, scale, cfg, s0);
    var t' := DemandAt(t, mid, scale, cfg, s0);
    if ws == mid {
      SameCrossing(t, mid, time, scale, cfg, s0);
      AddNoClamp(t', time - mid, scale, window);
    } else {
      CrossInTwo(t, t', mid, ws, time, scale, cfg, s0);
    }
  }

  /** Crossing to a boundary and then adding the rest is crossing with the rest. */
  lemma SameCrossing(t: Task, ws: int, time: int, scale: int, cfg: Config, s0: int)
    requires TaskReady(t, cfg, s0) && 1 <= scale <= CAPACITY_SCALE
    requires t.markStart < ws <= time < ws + cfg.window && OnGrid(s0, cfg.window, ws)
    ensures CrossWindows(t, ws, scale, false, ws, cfg).sum == 0
    ensures CrossWindows(t, ws, scale, false, time, cfg)
         == CrossWindows(t, ws, scale, false, ws, cfg).(sum := Scale(time - ws, scale))
  {
    hide CrossWindows, UpdateHistory;
    var _, _, _, _, a3 := CrossPieces(t, ws, scale, ws, cfg, s0);
    var _, _, _, _, b3 := CrossPieces(t, ws, scale, time, cfg, s0);
    ScaleZero(scale);
  }

  /** Crossing to a boundary and then on to a later one is crossing to the later one. */
  lemma CrossInTwo(t: Task, t': Task, mid: int, ws: int, time: int, scale: int, cfg: Config, s0: int)
    requires TaskReady(t, cfg, s0) && 1 <= scale <= CAPACITY_SCALE
    requires t.markStart < mid < ws <= time < ws + cfg.window
    requires OnGrid(s0, cfg.window, mid) && OnGrid(s0, cfg.window, ws)
    requires t' == CrossWindows(t, mid, scale, false, mid, cfg).(windowStart := mid, markStart := mid)
    requires TaskReady(t', cfg, s0)
    ensures CrossWindows(t', ws, scale, false, time, cfg).(windowStart := ws, markStart := time)
         == CrossWindows(t, ws, scale, false, time, cfg).(windowStart := ws, markStart := time)
  {
    hide CrossWindows, UpdateHistory;
    var k, k', n, a1, a3 := CrossPieces(t, mid, scale, mid, cfg, s0);
    var _, _, n2, b1, b3 := CrossPieces(t, ws, scale, time, cfg, s0);
    var _, _, n', c1, c3 := CrossPieces(t', ws, scale, time, cfg, s0);
    ScaleZero(scale);
    PushedInTwo(t, t', a1, a3, b3, c1, c3, n, n', scale, cfg);
  }

  lemma PushedInTwo(t: Task, t': Task, a1: Task, a3: Task, b3: Task, c1: Task, c3: Task, n: nat, n': nat,
                    scale: int, cfg: Config)
    requires ValidConfig(cfg) && 0 <= Scale(cfg.window, scale) && 0 <= a1.sum
    requires |a1.samples| == HIST_SIZE
    requires a3 == UpdateHistory(UpdateHistory(a1, false, a1.sum, 1, cfg), false, Scale(cfg.window, scale), n, cfg)
    requires b3 == UpdateHistory(UpdateHistory(a1, false, a1.sum, 1, cfg), false, Scale(cfg.window, scale), n + n', cfg)
    requires a3.sum == 0 && t' == a3.(windowStart := t'.windowStart, markStart := t'.markStart) && c1 == t'
    requires c3 == UpdateHistory(UpdateHistory(c1, false, c1.sum, 1, cfg), false, Scale(cfg.window, scale), n', cfg)
    ensures c3.(windowStart := b3.windowStart, markStart := b3.markStart) == b3
  {
    hide Demand, Scale;
    var a2 := UpdateHistory(a1, false, a1.sum, 1, cfg);
    assert |a2.samples| == HIST_SIZE && a2.sum == 0;
    HistoryTwice(a2, Scale(cfg.window, scale), n, n', cfg);
  }

  /** The task half inside one window at full speed. */
  lemma WindowSplitTask(t: Task, mid: int, time: int, cfg: Config, s0: int)
    requires TaskReady(t, cfg, s0)
    requires t.markStart < mid <= time && Grid(s0, cfg.window, mid) <= t.markStart
    ensures DemandAt(DemandAt(t, mid, CAPACITY_SCALE, cfg, s0), time, CAPACITY_SCALE, cfg, s0)
         == DemandAt(t, time, CAPACITY_SCALE, cfg, s0)
  {
    hide CrossWindows, AddToTaskDemand, UpdateHistory;
    var window := cfg.window;
    var ws := Grid(s0, window, time);
    BoundaryOnGrid(s0, window, Index(s0, window, mid));
    BoundaryOnGrid(s0, window, Index(s0, window, time));
    GridUnique(s0, window, Grid(s0, window, mid), t.markStart);
    DemandAtReady(t, mid, CAPACITY_SCALE, cfg, s0);
    var t' := DemandAt(t, mid, CAPACITY_SCALE, cfg, s0);
    AddNoClamp(t, mid - t.markStart, CAPACITY_SCALE, window);
    ScaleIdentity(mid - t.markStart);
    assert t' == t.(sum := t.sum + (mid - t.markStart), markStart := mid);
    if ws <= t.markStart {
      GridUnique(s0, window, ws, t.markStart);
      AddNoClamp(t, time - t.markStart, CAPACITY_SCALE, window);
      ScaleIdentity(time - t.markStart);
      AddNoClamp(t', time - mid, CAPACITY_SCALE, window);
      ScaleIdentity(time - mid);
    } else {
      BoundaryOrder(s0, window, Index(s0, window, t.markStart), Index(s0, window, time));
      BoundaryOrder(s0, window, Index(s0, window, time), Index(s0, window, t.markStart));
      WindowSplitCross(t, t', ws, mid, time, cfg, s0);
    }
  }

  lemma WindowSplitCross(t: Task, t': Task, ws: int, mid: int, time: int, cfg: Config, s0: int)
    requires TaskReady(t, cfg, s0) && TaskReady(t', cfg, s0)
    requires t' == t.(sum := t.sum + (mid - t.markStart), markStart := mid)
    requires t.markStart < mid < ws <= time < ws + cfg.window && OnGrid(s0, cfg.window, ws)
    requires Index(s0, cfg.window, mid) == Index(s0, cfg.window, t.markStart)
    ensures var one := CrossWindows(t, ws, CAPACITY_SCALE, false, time, cfg);
            CrossWindows(t', ws, CAPACITY_SCALE, false, time, cfg) == one.(markStart := mid)
  {
    hide CrossWindows, AddToTaskDemand, UpdateHistory;
    var window := cfg.window;
    var k, kb, nb, b1, b3 := CrossPieces(t, ws, CAPACITY_SCALE, time, cfg, s0);
    var _, kc, nc, c1, c3 := CrossPieces(t', ws, CAPACITY_SCALE, time, cfg, s0);
    ScaleIdentity(Boundary(s0, window, kb) - t.markStart);
    ScaleIdentity(Boundary(s0, window, kc) - mid);
    ScaleIdentity(window);
    assert kc == k + 1;
    if kb == k {
      assert b1.sum == 0 && c1.sum == window && nb == nc + 1;
      FirstFullWindow(b1, c1, window, nc, mid, cfg);
    } else {
      assert c1 == b1.(markStart := mid);
      SamePushes(b1, nc, mid, window, cfg);
    }
  }

  lemma SamePushes(b1: Task, n: nat, mid: int, runtime: int, cfg: Config)
    requires ValidConfig(cfg)
    ensures UpdateHistory(UpdateHistory(b1.(markStart := mid), false, b1.sum, 1, cfg), false, runtime, n, cfg)
         == UpdateHistory(UpdateHistory(b1, false, b1.sum, 1, cfg), false, runtime, n, cfg).(markStart := mid)
  {
    hide Demand;
  }

  lemma FirstFullWindow(b1: Task, c1: Task, full: int, n: nat, mid: int, cfg: Config)
    requires ValidConfig(cfg) && |b1.samples| == HIST_SIZE
    requires b1.sum == 0 && c1 == b1.(sum := full, markStart := mid)
    ensures UpdateHistory(UpdateHistory(c1, false, c1.sum, 1, cfg), false, full, n, cfg)
         == UpdateHistory(UpdateHistory(b1, false, b1.sum, 1, cfg), false, full, n + 1, cfg).(markStart := mid)
  {
    hide Demand;
    HistoryTwice(b1, full, 1, n, cfg);
  }

  // ----- both halves -----

  lemma SplitTaskFullSpeed(t: Task, mid: int, time: int, cfg: Config, s0: int)
    requires TaskReady(t, cfg, s0) && t.markStart < mid <= time
    ensures DemandAt(DemandAt(t, mid, CAPACITY_SCALE, cfg, s0), time, CAPACITY_SCALE, cfg, s0)
         == DemandAt(t, time, CAPACITY_SCALE, cfg, s0)
  {
    hide DemandAt;
    var g := Grid(s0, cfg.window, mid);
    BoundaryOnGrid(s0, cfg.window, Index(s0, cfg.window, mid));
    if g <= t.markStart {
      WindowSplitTask(t, mid, time, cfg, s0);
    } else {
      BoundarySplitTask(t, g, mid, CAPACITY_SCALE, cfg, s0);
      BoundarySplitTask(t, g, time, CAPACITY_SCALE, cfg, s0);
      DemandAtReady(t, g, CAPACITY_SCALE, cfg, s0);
      if g < mid {
        WindowSplitTask(DemandAt(t, g, CAPACITY_SCALE, cfg, s0), mid, time, cfg, s0);
      }
    }
  }

  /** At full speed an extra update at any time changes nothing, on the task or on the CPU. */
  lemma ExtraUpdateFullSpeed(rq: Rq, t: Task, mid: int, time: int, s: Speed, cfg: Config, s0: int)
    requires Running(rq, t, cfg, s0) && ExecScale(s) == CAPACITY_SCALE && t.markStart <= mid <= time
    ensures var rq', t' := UpdRq(rq, t, mid, s, cfg), UpdTask(rq, t, mid, s, cfg);
            && UpdRq(rq', t', time, s, cfg) == UpdRq(rq, t, time, s, cfg)
            && UpdTask(rq', t', time, s, cfg) == UpdTask(rq, t, time, s, cfg)
  {
    hide UpdateTaskDemand, RavgTask, UpdateCpuBusyTime, UpdateWindowStart;
    if t.markStart < mid < time {
      UpdKeepsRunning(rq, t, mid, s, cfg, s0);
      UpdOnGrid(rq, t, mid, s, cfg, s0);
      UpdOnGrid(rq, t, time, s, cfg, s0);
      UpdOnGrid(UpdRq(rq, t, mid, s, cfg), UpdTask(rq, t, mid, s, cfg), time, s, cfg, s0);
      SplitTaskFullSpeed(t, mid, time, cfg, s0);
      SplitCpuLoss(rq, t, mid, time, s, cfg, s0);
    } else {
      UpdAgain(rq, t, mid, time, s, cfg, s0);
    }
  }

  /** A second update at the same time as the mark, or no time passing, does nothing. */
  lemma UpdAgain(rq: Rq, t: Task, mid: int, time: int, s: Speed, cfg: Config, s0: int)
    requires Running(rq, t, cfg, s0) && ScaleOk(s) && t.markStart <= mid <= time
    requires mid == t.markStart || mid == time
    ensures var rq', t' := UpdRq(rq, t, mid, s, cfg), UpdTask(rq, t, mid, s, cfg);
            && UpdRq(rq', t', time, s, cfg) == UpdRq(rq, t, time, s, cfg)
            && UpdTask(rq', t', time, s, cfg) == UpdTask(rq, t, time, s, cfg)
  {
    UpdKeepsRunning(rq, t, mid, s, cfg, s0);
  }

  /** At any constant scale an extra update at a window boundary changes nothing. */
  lemma ExtraUpdateAtBoundary(rq: Rq, t: Task, mid: int, time: int, s: Speed, cfg: Config, s0: int)
    requires Running(rq, t, cfg, s0) && ScaleOk(s) && t.markStart <= mid <= time
    requires OnGrid(s0, cfg.window, mid)
    ensures var rq', t' := UpdRq(rq, t, mid, s, cfg), UpdTask(rq, t, mid, s, cfg);
            && UpdRq(rq', t', time, s, cfg) == UpdRq(rq, t, time, s, cfg)
            && UpdTask(rq', t', time, s, cfg) == UpdTask(rq, t, time, s, cfg)
  {
    hide UpdateTaskDemand, RavgTask, UpdateCpuBusyTime, UpdateWindowStart;
    if t.markStart < mid < time {
      UpdKeepsRunning(rq, t, mid, s, cfg, s0);
      UpdOnGrid(rq, t, mid, s, cfg, s0);
      UpdOnGrid(rq, t, time, s, cfg, s0);
      UpdOnGrid(UpdRq(rq, t, mid, s, cfg), UpdTask(rq, t, mid, s, cfg), time, s, cfg, s0);
      BoundarySplitTask(t, mid, time, ExecScale(s), cfg, s0);
      BoundarySplitCpu(rq, t, mid, time, s, cfg, s0);
    } else {
      UpdAgain(rq, t, mid, time, s, cfg, s0);
    }
  }

  // ----- the task record anywhere -----

  // A closed window becomes a sample unless its run time is 0.
  function Sampled(v: int, n: nat): (r: seq<int>)
    ensures |r| == if v == 0 then 0 else n
  {
    if v == 0 then [] else Repeat(v, n)
  }

  // The task once a window of run time v and n more of run time full have been closed.
  function Closed(t: Task, v: int, full: int, n: nat, cfg: Config): Task
    requires ValidConfig(cfg)
  {
    UpdateHistory(UpdateHistory(t.(sum := v), false, v, 1, cfg), false, full, n, cfg)
  }

  lemma ClosedIs(t: Task, v: int, full: int, n: nat, cfg: Config)
    requires ValidConfig(cfg) && |t.samples| == HIST_SIZE
    ensures Closed(t, v, full, n, cfg).samples == LastN(t.samples + Sampled(v, 1) + Sampled(full, n), HIST_SIZE)
  {
    hide Demand;
    var t1 := UpdateHistory(t.(sum := v), false, v, 1, cfg);
    assert t.samples + [] == t.samples;
    assert t1.samples == LastN(t.samples + Sampled(v, 1), HIST_SIZE);
    LastNAbsorbs(t.samples + Sampled(v, 1), Sampled(full, n), HIST_SIZE);
    assert t1.samples + [] == t1.samples;
  }

  /** What is not part of the history plays no role in closing a window. */
  lemma ClosedAlike(t: Task, t': Task, v: int, full: int, n: nat, cfg: Config, x: Task)
    requires ValidConfig(cfg) && t' == t.(sum := t'.sum, markStart := t'.markStart)
    ensures Closed(t', v, full, n, cfg).(sum := x.sum, windowStart := x.windowStart, markStart := x.markStart)
         == Closed(t, v, full, n, cfg).(sum := x.sum, windowStart := x.windowStart, markStart := x.markStart)
  {
    hide Demand;
  }

  /** An update in a later window, wherever in its window the task was marked: the first window gets what is
      left of it, every full window its scaled size, the current one the rest. */
  lemma LeavesWindow(t: Task, time: int, scale: int, cfg: Config, s0: int)
    requires TaskReady(t, cfg, s0) && 1 <= scale <= CAPACITY_SCALE && t.markStart <= time
    requires Index(s0, cfg.window, t.markStart) < Index(s0, cfg.window, time)
    ensures var i, k := Index(s0, cfg.window, t.markStart), Index(s0, cfg.window, time);
            var ws := Boundary(s0, cfg.window, k);
            var first := t.sum + Scale(Boundary(s0, cfg.window, i + 1) - t.markStart, scale);
            DemandAt(t, time, scale, cfg, s0) == Closed(t, first, Scale(cfg.window, scale), k - i - 1, cfg)
                                                   .(sum := Scale(time - ws, scale), windowStart := ws, markStart := time)
  {
    hide CrossWindows, AddToTaskDemand, UpdateHistory;
    var window := cfg.window;
    var i, k := Index(s0, window, t.markStart), Index(s0, window, time);
    var ws := Boundary(s0, window, k);
    BoundaryOnGrid(s0, window, k);
    BoundaryOrder(s0, window, i, k);
    var _, k', n, t1, t3 := CrossPieces(t, ws, scale, time, cfg, s0);
    if k' == i {
      ScaleZero(scale);
      assert t1 == t && t.sum == 0;
      FirstFullWindow(t, t.(sum := Scale(window, scale)), Scale(window, scale), n - 1, t.markStart, cfg);
    } else {
      assert t1.(sum := t1.sum) == t1;
    }
  }

  // The units an update at b costs the span from a to c.
  function Lost(a: int, b: int, c: int, scale: int): int {
    Scale(c - a, scale) - Scale(b - a, scale) - Scale(c - b, scale)
  }

  // The task as it enters the window of mid, if it was not there already.
  function Entering(t: Task, mid: int, scale: int, cfg: Config, s0: int): Task
    requires ValidConfig(cfg) && s0 <= mid
  {
    var ws := Grid(s0, cfg.window, mid);
    if ws <= t.markStart then t
    else
      BoundaryOrder(s0, cfg.window, 0, Index(s0, cfg.window, mid));
      DemandAt(t, ws, scale, cfg, s0)
  }

  /** An update in the window of the mark adds to the running sum and nothing else. */
  lemma AddInWindow(t: Task, time: int, scale: int, cfg: Config, s0: int)
    requires TaskReady(t, cfg, s0) && 1 <= scale <= CAPACITY_SCALE && t.markStart <= time
    requires Index(s0, cfg.window, time) == Index(s0, cfg.window, t.markStart)
    ensures DemandAt(t, time, scale, cfg, s0)
         == t.(sum := t.sum + Scale(time - t.markStart, scale), markStart := time)
  {
    hide Scale, AddToTaskDemand;
    AddNoClamp(t, time - t.markStart, scale, cfg.window);
  }

  /** Both ways to reach a later time in the window of the mark, with the unit between them. */
  lemma SplitStaying(b: Task, mid: int, time: int, scale: int, cfg: Config, s0: int)
    requires TaskReady(b, cfg, s0) && 1 <= scale <= CAPACITY_SCALE && s0 <= b.markStart <= mid <= time
    requires Index(s0, cfg.window, b.markStart) == Index(s0, cfg.window, mid) == Index(s0, cfg.window, time)
    ensures DemandAt(DemandAt(b, mid, scale, cfg, s0), time, scale, cfg, s0)
         == DemandAt(b, time, scale, cfg, s0).(sum := DemandAt(b, time, scale, cfg, s0).sum - Lost(b.markStart, mid, time, scale))
  {
    hide DemandAt, Scale;
    AddInWindow(b, mid, scale, cfg, s0);
    AddInWindow(b, time, scale, cfg, s0);
    DemandAtReady(b, mid, scale, cfg, s0);
    AddInWindow(DemandAt(b, mid, scale, cfg, s0), time, scale, cfg, s0);
  }

  /** Both ways to reach a later window: the unit is missing from the sample of the window they leave. */
  lemma SplitLeaving(b: Task, b': Task, mid: int, time: int, end: int, v: int, full: int, loss: int, i: nat, k: nat,
                     scale: int, cfg: Config, s0: int)
    requires TaskReady(b, cfg, s0) && TaskReady(b', cfg, s0) && 1 <= scale <= CAPACITY_SCALE
    requires ValidConfig(cfg) && s0 <= b.markStart <= mid <= time && 0 <= b.sum
    requires i == Index(s0, cfg.window, mid) == Index(s0, cfg.window, b.markStart) && k == Index(s0, cfg.window, time) && i < k
    requires end == Boundary(s0, cfg.window, i + 1) && mid < end
    requires b' == b.(sum := b.sum + Scale(mid - b.markStart, scale), markStart := mid)
    requires loss == Lost(b.markStart, mid, end, scale) && full == Scale(cfg.window, scale)
    requires v == b.sum + Scale(end - b.markStart, scale)
    ensures loss <= v
    ensures var one := DemandAt(b, time, scale, cfg, s0);
            one == Closed(b, v, full, k - i - 1, cfg)
                     .(sum := one.sum, windowStart := one.windowStart, markStart := one.markStart)
    ensures var one, two := DemandAt(b, time, scale, cfg, s0), DemandAt(b', time, scale, cfg, s0);
            two == Closed(b, v - loss, full, k - i - 1, cfg)
                     .(sum := one.sum, windowStart := one.windowStart, markStart := one.markStart)
  {
    hide DemandAt, Closed, Scale, Boundary, Index, Grid, OnGrid, TaskReady, TaskBounded;
    LeavesWindow(b, time, scale, cfg, s0);
    LeavesWindow(b', time, scale, cfg, s0);
    LossFits(b.sum, b.markStart, mid, end, scale);
    hide Lost;
    SameClosing(b, b', DemandAt(b, time, scale, cfg, s0), DemandAt(b', time, scale, cfg, s0), v - loss, full,
                k - i - 1, cfg);
  }

  lemma LossFits(sum: int, a: int, b: int, c: int, scale: int)
    requires 0 <= sum && a <= b <= c && 0 <= scale <= CAPACITY_SCALE
    ensures 0 <= Lost(a, b, c, scale) <= 1 && Lost(a, b, c, scale) <= sum + Scale(c - a, scale)
    ensures sum + Scale(b - a, scale) + Scale(c - b, scale) == sum + Scale(c - a, scale) - Lost(a, b, c, scale)
  {
    hide Scale;
    ScaleBound(b - a, scale);
    ScaleBound(c - b, scale);
    ScaleSplit(b - a, c - b, scale);
  }

  lemma SameClosing(b: Task, b': Task, one: Task, two: Task, v: int, full: int, n: nat, cfg: Config)
    requires ValidConfig(cfg) && b' == b.(sum := b'.sum, markStart := b'.markStart)
    requires two == Closed(b', v, full, n, cfg).(sum := one.sum, windowStart := one.windowStart, markStart := one.markStart)
    ensures two == Closed(b, v, full, n, cfg).(sum := one.sum, windowStart := one.windowStart, markStart := one.markStart)
  {
    ClosedAlike(b, b', v, full, n, cfg, one);
  }

  // What an extra update at mid leaves of the record one, where the update at time alone ends: loss units are
  // gone, from the running sum if mid's window is still open, else from that window's sample, which is
  // left out when nothing remains of it. base is the task as it entered mid's window.
  predicate Costs(one: Task, two: Task, base: Task, mid: int, time: int, scale: int, cfg: Config, s0: int)
    requires ValidConfig(cfg) && s0 <= mid <= time
  {
    CostsAt(one, two, base, mid, time, Boundary(s0, cfg.window, Index(s0, cfg.window, mid) + 1),
            Index(s0, cfg.window, time) - Index(s0, cfg.window, mid) - 1, scale, cfg)
  }

  // The same with the end of mid's window and the number of full windows after it.
  predicate CostsAt(one: Task, two: Task, base: Task, mid: int, time: int, end: int, n: int, scale: int, cfg: Config)
    requires ValidConfig(cfg)
  {
    var loss := Lost(base.markStart, mid, Min(time, end), scale);
    && 0 <= loss <= 1
    && if time < end then
         two == one.(sum := one.sum - loss)
       else
         var v, full := base.sum + Scale(end - base.markStart, scale), Scale(cfg.window, scale);
         && 0 <= n && loss <= v
         && one.samples == LastN(base.samples + Sampled(v, 1) + Sampled(full, n), HIST_SIZE)
         && two.samples == LastN(base.samples + Sampled(v - loss, 1) + Sampled(full, n), HIST_SIZE)
         && two == one.(samples := two.samples, demand := two.demand, demandScaled := two.demandScaled)
         && DemandCurrent(one, cfg) && DemandCurrent(two, cfg)
  }

  // The lost unit cannot be seen in the ring any more: later samples have pushed its window's sample out, or
  // the sample was 1 and dropping it from ones makes no difference.
  predicate PushedOut(samples: seq<int>, v: int, later: nat) {
    later >= |samples| || (v == 1 && forall i :: later <= i < |samples| ==> samples[i] == 1)
  }

  /** The task half anywhere, at any constant scale: an extra update costs the task at most one unit, taken
      from its running sum while the window of the extra update lasts, and from that one window's
      sample afterwards; demand is the policy's statistic of the ring in either case. */
  lemma ExtraUpdateTask(rq: Rq, t: Task, mid: int, time: int, s: Speed, cfg: Config, s0: int)
    requires Running(rq, t, cfg, s0) && ScaleOk(s) && DemandCurrent(t, cfg) && t.markStart < mid < time
    ensures Costs(UpdTask(rq, t, time, s, cfg),
                  UpdTask(UpdRq(rq, t, mid, s, cfg), UpdTask(rq, t, mid, s, cfg), time, s, cfg),
                  Entering(t, mid, ExecScale(s), cfg, s0), mid, time, ExecScale(s), cfg, s0)
  {
    hide UpdateTaskDemand, RavgTask, RavgRq, DemandAt, Entering, Costs, Running;
    var scale := ExecScale(s);
    UpdateTwice(rq, t, mid, time, s, cfg, s0);
    EnteringIs(t, mid, time, scale, cfg, s0);
    var b := Entering(t, mid, scale, cfg, s0);
    UpdDemandCurrent(rq, t, mid, s, cfg);
    UpdDemandCurrent(rq, t, time, s, cfg);
    UpdDemandCurrent(UpdRq(rq, t, mid, s, cfg), UpdTask(rq, t, mid, s, cfg), time, s, cfg);
    CostsFromWindow(b, mid, time, scale, cfg, s0);
  }

  lemma UpdDemandCurrent(rq: Rq, t: Task, time: int, s: Speed, cfg: Config)
    requires ValidConfig(cfg) && DemandCurrent(t, cfg)
    ensures DemandCurrent(UpdTask(rq, t, time, s, cfg), cfg)
  {
    hide RavgTask, DemandCurrent;
    DemandKept(rq, t, false, TaskUpdate, true, time, s, cfg);
  }

  /** The two task records in grid terms. */
  lemma UpdateTwice(rq: Rq, t: Task, mid: int, time: int, s: Speed, cfg: Config, s0: int)
    requires Running(rq, t, cfg, s0) && ScaleOk(s) && t.markStart < mid < time
    ensures TaskReady(t, cfg, s0) && s0 <= t.markStart
    ensures UpdTask(rq, t, time, s, cfg) == DemandAt(t, time, ExecScale(s), cfg, s0)
    ensures UpdTask(UpdRq(rq, t, mid, s, cfg), UpdTask(rq, t, mid, s, cfg), time, s, cfg)
         == DemandAt(DemandAt(t, mid, ExecScale(s), cfg, s0), time, ExecScale(s), cfg, s0)
  {
    hide UpdateTaskDemand, RavgTask, UpdateCpuBusyTime, UpdateWindowStart;
    UpdKeepsRunning(rq, t, mid, s, cfg, s0);
    UpdOnGrid(rq, t, mid, s, cfg, s0);
    UpdOnGrid(rq, t, time, s, cfg, s0);
    UpdOnGrid(UpdRq(rq, t, mid, s, cfg), UpdTask(rq, t, mid, s, cfg), time, s, cfg, s0);
  }

  /** Entering mid's window first changes neither way. */
  lemma EnteringIs(t: Task, mid: int, time: int, scale: int, cfg: Config, s0: int)
    requires TaskReady(t, cfg, s0) && 1 <= scale <= CAPACITY_SCALE && t.markStart < mid <= time
    ensures var b := Entering(t, mid, scale, cfg, s0);
            && TaskReady(b, cfg, s0) && s0 <= b.markStart <= mid
            && Index(s0, cfg.window, mid) == Index(s0, cfg.window, b.markStart)
            && DemandAt(b, time, scale, cfg, s0) == DemandAt(t, time, scale, cfg, s0)
            && DemandAt(DemandAt(b, mid, scale, cfg, s0), time, scale, cfg, s0)
               == DemandAt(DemandAt(t, mid, scale, cfg, s0), time, scale, cfg, s0)
  {
    hide DemandAt;
    var g := Grid(s0, cfg.window, mid);
    BoundaryOnGrid(s0, cfg.window, Index(s0, cfg.window, mid));
    if g <= t.markStart {
      GridUnique(s0, cfg.window, g, t.markStart);
    } else {
      DemandAtReady(t, g, scale, cfg, s0);
      BoundarySplitTask(t, g, mid, scale, cfg, s0);
      BoundarySplitTask(t, g, time, scale, cfg, s0);
    }
  }

  lemma CostsFromWindow(b: Task, mid: int, time: int, scale: int, cfg: Config, s0: int)
    requires TaskReady(b, cfg, s0) && 1 <= scale <= CAPACITY_SCALE && s0 <= b.markStart <= mid <= time
    requires Index(s0, cfg.window, mid) == Index(s0, cfg.window, b.markStart)
    requires DemandCurrent(DemandAt(b, time, scale, cfg, s0), cfg)
    requires DemandCurrent(DemandAt(DemandAt(b, mid, scale, cfg, s0), time, scale, cfg, s0), cfg)
    ensures Costs(DemandAt(b, time, scale, cfg, s0), DemandAt(DemandAt(b, mid, scale, cfg, s0), time, scale, cfg, s0),
                  b, mid, time, scale, cfg, s0)
  {
    hide DemandAt, DemandCurrent, CostsAt, Lost, Scale, Index, Boundary, Grid, OnGrid;
    var i, k, end := WindowsOf(s0, cfg.window, mid, time);
    assert ValidConfig(cfg) && 0 <= b.sum && |b.samples| == HIST_SIZE;
    hide TaskReady;
    DemandAtReady(b, mid, scale, cfg, s0);
    if time < end {
      SplitStaying(b, mid, time, scale, cfg, s0);
      var n: int := k - i as int - 1;
      StayingCosts(b, DemandAt(b, time, scale, cfg, s0), DemandAt(DemandAt(b, mid, scale, cfg, s0), time, scale, cfg, s0),
                   mid, time, end, n, scale, cfg);
    } else {
      AddInWindow(b, mid, scale, cfg, s0);
      SplitLeaving(b, DemandAt(b, mid, scale, cfg, s0), mid, time, end, b.sum + Scale(end - b.markStart, scale),
                   Scale(cfg.window, scale), Lost(b.markStart, mid, end, scale), i, k, scale, cfg, s0);
      LeavingCosts(b, DemandAt(b, time, scale, cfg, s0), DemandAt(DemandAt(b, mid, scale, cfg, s0), time, scale, cfg, s0),
                   mid, time, end, k - i - 1, scale, cfg);
    }
  }

  lemma WindowsOf(s0: int, window: int, mid: int, time: int) returns (i: nat, k: nat, end: int)
    requires window > 0 && s0 <= mid <= time
    ensures i == Index(s0, window, mid) && k == Index(s0, window, time) && end == Boundary(s0, window, i + 1)
    ensures mid < end && if time < end then k == i else i < k
  {
    i, k := Index(s0, window, mid), Index(s0, window, time);
    end := Boundary(s0, window, i + 1);
    BoundaryOrder(s0, window, k, i);
    BoundaryOrder(s0, window, i + 1, k);
  }

  lemma StayingCosts(b: Task, one: Task, two: Task, mid: int, time: int, end: int, n: int, scale: int, cfg: Config)
    requires ValidConfig(cfg) && 1 <= scale && b.markStart <= mid <= time < end
    requires two == one.(sum := one.sum - Lost(b.markStart, mid, time, scale))
    ensures CostsAt(one, two, b, mid, time, end, n, scale, cfg)
  {
    ScaleSplit(mid - b.markStart, time - mid, scale);
    hide Scale;
  }

  lemma LeavingCosts(b: Task, one: Task, two: Task, mid: int, time: int, end: int, n: nat, scale: int, cfg: Config)
    requires ValidConfig(cfg) && 1 <= scale <= CAPACITY_SCALE && b.markStart <= mid < end <= time && |b.samples| == HIST_SIZE
    requires DemandCurrent(one, cfg) && DemandCurrent(two, cfg)
    requires Lost(b.markStart, mid, end, scale) <= b.sum + Scale(end - b.markStart, scale)
    requires one == Closed(b, b.sum + Scale(end - b.markStart, scale), Scale(cfg.window, scale), n, cfg)
                      .(sum := one.sum, windowStart := one.windowStart, markStart := one.markStart)
    requires two == Closed(b, b.sum + Scale(end - b.markStart, scale) - Lost(b.markStart, mid, end, scale),
                           Scale(cfg.window, scale), n, cfg)
                      .(sum := one.sum, windowStart := one.windowStart, markStart := one.markStart)
    ensures CostsAt(one, two, b, mid, time, end, n, scale, cfg)
  {
    hide Scale, DemandCurrent, Closed, LastN, Sampled, Lost;
    LossFits(0, b.markStart, mid, end, scale);
    var v, full := b.sum + Scale(end - b.markStart, scale), Scale(cfg.window, scale);
    var loss := Lost(b.markStart, mid, end, scale);
    ClosedIs(b, v, full, n, cfg);
    ClosedIs(b, v - loss, full, n, cfg);
    SameButRing(one, two, Closed(b, v, full, n, cfg), Closed(b, v - loss, full, n, cfg));
  }

  lemma SameButRing(one: Task, two: Task, a: Task, b: Task)
    requires one == a.(sum := one.sum, windowStart := one.windowStart, markStart := one.markStart)
    requires two == b.(sum := one.sum, windowStart := one.windowStart, markStart := one.markStart)
    ensures one.samples == a.samples && two.samples == b.samples
    ensures two == one.(samples := two.samples, demand := two.demand, demandScaled := two.demandScaled)
  {
  }

  /** When the task record is the same with and without the extra update: no unit was lost, or its window has
      been closed and its sample cannot be told from the ring any more. */
  lemma ExtraUpdateTaskIff(one: Task, two: Task, base: Task, mid: int, time: int, scale: int, cfg: Config, s0: int)
    requires ValidConfig(cfg) && s0 <= mid <= time && |base.samples| == HIST_SIZE
    requires Costs(one, two, base, mid, time, scale, cfg, s0)
    ensures var end := Boundary(s0, cfg.window, Index(s0, cfg.window, mid) + 1);
            two == one <==>
              || Lost(base.markStart, mid, Min(time, end), scale) == 0
              || (end <= time
                  && PushedOut(base.samples, base.sum + Scale(end - base.markStart, scale),
                               |Sampled(Scale(cfg.window, scale),
                                        Index(s0, cfg.window, time) - Index(s0, cfg.window, mid) - 1)|))
  {
    hide Scale, Lost, PushedOut, Index, Boundary, CostsAt;
    var i, k, end := WindowsOf(s0, cfg.window, mid, time);
    if end <= time {
      SameIff(one, two, base, mid, time, end, k - i - 1, scale, cfg);
    } else {
      var n: int := k - i as int - 1;
      StillOpenIff(one, two, base, mid, time, end, n, scale, cfg);
    }
  }

  lemma StillOpenIff(one: Task, two: Task, base: Task, mid: int, time: int, end: int, n: int, scale: int, cfg: Config)
    requires ValidConfig(cfg) && time < end && CostsAt(one, two, base, mid, time, end, n, scale, cfg)
    ensures two == one <==> Lost(base.markStart, mid, time, scale) == 0
  {
    hide Lost;
  }

  lemma SameIff(one: Task, two: Task, base: Task, mid: int, time: int, end: int, n: nat, scale: int, cfg: Config)
    requires ValidConfig(cfg) && end <= time && |base.samples| == HIST_SIZE
    requires CostsAt(one, two, base, mid, time, end, n, scale, cfg)
    ensures two == one <==>
              || Lost(base.markStart, mid, end, scale) == 0
              || PushedOut(base.samples, base.sum + Scale(end - base.markStart, scale), |Sampled(Scale(cfg.window, scale), n)|)
  {
    hide Scale, Lost, PushedOut, LastN, Sampled, DemandCurrent;
    RingsAgree(base.samples, base.sum + Scale(end - base.markStart, scale), Lost(base.markStart, mid, end, scale),
               Sampled(Scale(cfg.window, scale), n));
    SameRing(one, two, cfg);
  }

  lemma SameRing(one: Task, two: Task, cfg: Config)
    requires ValidConfig(cfg) && DemandCurrent(one, cfg) && DemandCurrent(two, cfg)
    requires two == one.(samples := two.samples, demand := two.demand, demandScaled := two.demandScaled)
    ensures two.samples == one.samples ==> two == one
  {
  }

  /** Two rings that differ in one closed window's sample, by at most one unit. */
  lemma RingsAgree(s: seq<int>, v: int, loss: int, later: seq<int>)
    requires |s| == HIST_SIZE && 0 <= loss <= 1 && loss <= v
    ensures LastN(s + Sampled(v - loss, 1) + later, HIST_SIZE) == LastN(s + Sampled(v, 1) + later, HIST_SIZE)
       <==> loss == 0 || PushedOut(s, v, |later|)
    ensures v > 1 ==> forall i :: 0 <= i < HIST_SIZE ==>
              LastN(s + Sampled(v - loss, 1) + later, HIST_SIZE)[i]
              == LastN(s + Sampled(v, 1) + later, HIST_SIZE)[i] - if i == HIST_SIZE - 1 - |later| then loss else 0
  {
    var a, b := LastN(s + Sampled(v, 1) + later, HIST_SIZE), LastN(s + Sampled(v - loss, 1) + later, HIST_SIZE);
    RingWith(s, v, later);
    RingWith(s, v - loss, later);
    hide LastN, Sampled;
    if loss == 1 && |later| < HIST_SIZE {
      var at := HIST_SIZE - 1 - |later|;
      assert a[at] == v;
      if v > 1 {
        assert b[at] == v - 1;
      } else {
        AllOnes(s, |later|, a, b);
      }
    }
  }

  /** The last five of a ring with one window's sample and later ones appended. */
  lemma RingWith(s: seq<int>, v: int, later: seq<int>)
    requires |s| == HIST_SIZE
    ensures |LastN(s + Sampled(v, 1) + later, HIST_SIZE)| == HIST_SIZE
    ensures |later| >= HIST_SIZE ==> LastN(s + Sampled(v, 1) + later, HIST_SIZE) == LastN(later, HIST_SIZE)
    ensures |later| < HIST_SIZE ==>
              forall i :: 0 <= i < HIST_SIZE ==>
                LastN(s + Sampled(v, 1) + later, HIST_SIZE)[i]
                == if i >= HIST_SIZE - |later| then later[i - HIST_SIZE + |later|]
                   else if v == 0 then s[i + |later|]
                   else if i == HIST_SIZE - 1 - |later| then v
                   else s[i + |later| + 1]
  {
    if v == 0 {
      assert s + Sampled(v, 1) + later == s + later;
    } else {
      assert Repeat(v, 1) == [v];
      assert s + Sampled(v, 1) + later == s + [v] + later;
    }
  }

  /** Dropping the last one of a row of samples goes unnoticed only if all of them are ones. */
  lemma AllOnes(s: seq<int>, later: nat, a: seq<int>, b: seq<int>)
    requires |s| == |a| == |b| == HIST_SIZE && later < HIST_SIZE
    requires a[HIST_SIZE - 1 - later] == 1
    requires forall i :: 0 <= i < HIST_SIZE - 1 - later ==> a[i] == s[i + later + 1]
    requires forall i :: 0 <= i <= HIST_SIZE - 1 - later ==> b[i] == s[i + later]
    requires forall i :: HIST_SIZE - 1 - later < i < HIST_SIZE ==> a[i] == b[i]
    ensures a == b <==> forall i :: later <= i < HIST_SIZE ==> s[i] == 1
  {
    var at := HIST_SIZE - 1 - later;
    if a == b {
      assert s[4] == b[at] == 1;
      assert later <= 3 ==> b[at - 1] == a[at - 1] == s[4];
      assert later <= 2 ==> b[at - 2] == a[at - 2] == s[3];
      assert later <= 1 ==> b[at - 3] == a[at - 3] == s[2];
      assert later <= 0 ==> b[at - 4] == a[at - 4] == s[1];
    }
  }

  // A window of 2^20 ns, half speed, a task marked 2 ns before the boundary at 2^21 whose last four samples are 1.
  const HALF_SPEED := Speed(0, 0, 512)
  const SMALL_CFG := Config(0x10_0000, 2, 1024)
  const SMALL_RQ := Rq(0x10_0000, 0x20_0000 - 2, 0x10_0000, CAPACITY_SCALE, 0, 0)
  const SMALL_TASK := Task(0x20_0000 - 2, 0x10_0000, 0, [0x8_0000, 1, 1, 1, 1], 104858, 102)

  /** One unit can matter: here a tick in the last nanosecond of the window costs the task a whole sample, and its
      demand stays at 104858 where the single update brings it down to 1. */
  lemma LostUnitDropsSample()
    ensures Running(SMALL_RQ, SMALL_TASK, SMALL_CFG, 0x10_0000) && DemandCurrent(SMALL_TASK, SMALL_CFG)
    ensures ExecScale(HALF_SPEED) == 512
    ensures var one := UpdTask(SMALL_RQ, SMALL_TASK, 0x20_0005, HALF_SPEED, SMALL_CFG);
            one.samples == [1, 1, 1, 1, 1] && one.demand == 1
    ensures var rq', t' := UpdRq(SMALL_RQ, SMALL_TASK, 0x1F_FFFF, HALF_SPEED, SMALL_CFG),
                           UpdTask(SMALL_RQ, SMALL_TASK, 0x1F_FFFF, HALF_SPEED, SMALL_CFG);
            var two := UpdTask(rq', t', 0x20_0005, HALF_SPEED, SMALL_CFG);
            two.samples == [0x8_0000, 1, 1, 1, 1] && two.demand == 104858
  {
    var rq, t, s, cfg, s0 := SMALL_RQ, SMALL_TASK, HALF_SPEED, SMALL_CFG, 0x10_0000;
    SmallIsRunning();
    ExtraUpdateTask(rq, t, 0x1F_FFFF, 0x20_0005, s, cfg, s0);
    var one := UpdTask(rq, t, 0x20_0005, s, cfg);
    var two := UpdTask(UpdRq(rq, t, 0x1F_FFFF, s, cfg), UpdTask(rq, t, 0x1F_FFFF, s, cfg), 0x20_0005, s, cfg);
    hide UpdTask, UpdRq, Running;
    SmallCosts(one, two);
  }

  lemma SmallIsRunning()
    ensures Running(SMALL_RQ, SMALL_TASK, SMALL_CFG, 0x10_0000) && DemandCurrent(SMALL_TASK, SMALL_CFG)
    ensures ExecScale(HALF_SPEED) == 512
  {
    SmallStatistics();
    IndexUnique(0x10_0000, 0x10_0000, 0x10_0000, 0);
    IndexUnique(0x10_0000, 0x10_0000, 0x1F_FFFE, 0);
  }

  lemma SmallStatistics()
    ensures Demand(2, 1, [0x8_0000, 1, 1, 1, 1]) == 104858 && MaxOf([0x8_0000, 1, 1, 1, 1]) == 0x8_0000
    ensures Demand(2, 1, [1, 1, 1, 1, 1]) == 1
  {
    var a, b := [0x8_0000, 1, 1, 1, 1], [1, 1, 1, 1, 1];
    assert a[..4] == [0x8_0000, 1, 1, 1] && a[..4][..3] == [0x8_0000, 1, 1] && a[..4][..3][..2] == [0x8_0000, 1];
    assert a[..4][..3][..2][..1] == [0x8_0000];
    assert SumOf([0x8_0000]) == 0x8_0000 && MaxOf([0x8_0000]) == 0x8_0000;
    assert SumOf([0x8_0000, 1]) == 0x8_0001 && MaxOf([0x8_0000, 1]) == 0x8_0000;
    assert SumOf([0x8_0000, 1, 1]) == 0x8_0002 && MaxOf([0x8_0000, 1, 1]) == 0x8_0000;
    assert b[..4] == [1, 1, 1, 1] && b[..4][..3] == [1, 1, 1] && b[..4][..3][..2] == [1, 1];
    assert b[..4][..3][..2][..1] == [1];
    assert SumOf([1]) == 1 && SumOf([1, 1]) == 2 && SumOf([1, 1, 1]) == 3;
  }

  lemma SmallCosts(one: Task, two: Task)
    requires Costs(one, two, Entering(SMALL_TASK, 0x1F_FFFF, 512, SMALL_CFG, 0x10_0000), 0x1F_FFFF, 0x20_0005, 512,
                   SMALL_CFG, 0x10_0000)
    ensures one.samples == [1, 1, 1, 1, 1] && one.demand == 1
    ensures two.samples == [0x8_0000, 1, 1, 1, 1] && two.demand == 104858
  {
    IndexUnique(0x10_0000, 0x10_0000, 0x1F_FFFF, 0);
    assert Boundary(0x10_0000, 0x10_0000, 1) == 0x20_0000;
    IndexUnique(0x10_0000, 0x10_0000, 0x20_0005, 1);
    hide Index, Demand;
    assert Entering(SMALL_TASK, 0x1F_FFFF, 512, SMALL_CFG, 0x10_0000) == SMALL_TASK;
    assert Lost(0x1F_FFFE, 0x1F_FFFF, 0x20_0000, 512) == 1;
    assert Repeat(1, 1) == [1];
    SmallStatistics();
  }

  // ----- rounding of the reported run time -----

  /** Splitting a span into n + 2 pieces loses at most n + 1 units, and the pieces are the whole span. */
  lemma RoundingConserved(mark: int, ws: int, scale: int, wallclock: int, window: int)
    requires window > 0 && 0 <= scale && mark < ws <= wallclock
    ensures var n := Whole(ws - mark, window);
            var r := DemandRuntime(mark, ws, scale, true, wallclock, window);
            && (ws - n * window - mark) + n * window + (wallclock - ws) == wallclock - mark
            && Scale(wallclock - mark, scale) - (n + 1) <= r <= Scale(wallclock - mark, scale)
  {
    var n := Whole(ws - mark, window);
    var a, b := ws - n * window - mark, wallclock - ws;
    ScaleMany(window, scale, n);
    ScaleSplit(a, n * window, scale);
    ScaleSplit(a + n * window, b, scale);
    if n == 0 {
      ScaleZero(scale);
    }
  }

  lemma {:induction false} ScaleMany(d: int, s: int, n: nat)
    requires 0 <= d && 0 <= s
    ensures n * Scale(d, s) <= Scale(n * d, s)
    ensures n > 0 ==> Scale(n * d, s) <= n * Scale(d, s) + (n - 1)
  {
    if n > 0 {
      ScaleMany(d, s, n - 1);
      assert n * d == (n - 1) * d + d;
      assert n * Scale(d, s) == (n - 1) * Scale(d, s) + Scale(d, s);
      MulMonotone(0, n - 1, d);
      ScaleSplit((n - 1) * d, d, s);
      ScaleZero(s);
    }
  }

  /** An extra update anywhere, at any constant scale, costs the reported run time at most one unit. */
  lemma ExtraUpdateRuntime(mark: int, mid: int, time: int, scale: int, window: int, s0: int)
    requires window > 0 && 0 <= scale && s0 <= mark < mid < time
    ensures var one := DemandRuntime(mark, Grid(s0, window, time), scale, true, time, window);
            var two := DemandRuntime(mark, Grid(s0, window, mid), scale, true, mid, window)
                     + DemandRuntime(mid, Grid(s0, window, time), scale, true, time, window);
            one - 1 <= two <= one
  {
    hide DemandRuntime, Scale, Index;
    var i, j, k := Index(s0, window, mark), Index(s0, window, mid), Index(s0, window, time);
    BoundaryOrder(s0, window, j, i);
    BoundaryOrder(s0, window, k, j);
    RuntimePieces(mark, mid, scale, window, s0);
    RuntimePieces(mark, time, scale, window, s0);
    RuntimePieces(mid, time, scale, window, s0);
    var full := Scale(window, scale);
    if i == j {
      ScaleSplit(mid - mark, (if j == k then time else Boundary(s0, window, j + 1)) - mid, scale);
    } else {
      BoundaryOrder(s0, window, i, j);
      ScaleSplit(mid - Boundary(s0, window, j), (if j == k then time else Boundary(s0, window, j + 1)) - mid, scale);
      assert (j - i - 1) * full + (k - j - 1) * full + full == (k - i - 1) * full;
    }
  }

  // The run time of a busy span, window by window.
  function RuntimeByWindow(mark: int, time: int, scale: int, window: int, s0: int): int
    requires window > 0 && s0 <= mark <= time
  {
    var i, k := Index(s0, window, mark), Index(s0, window, time);
    if i == k then Scale(time - mark, scale)
    else Scale(Boundary(s0, window, i + 1) - mark, scale) + (k - i - 1) * Scale(window, scale)
         + Scale(time - Boundary(s0, window, k), scale)
  }

  lemma RuntimePieces(mark: int, time: int, scale: int, window: int, s0: int)
    requires window > 0 && 0 <= scale && s0 <= mark < time
    ensures Index(s0, window, mark) <= Index(s0, window, time)
    ensures DemandRuntime(mark, Grid(s0, window, time), scale, true, time, window)
         == RuntimeByWindow(mark, time, scale, window, s0)
  {
    hide Scale, Whole;
    var i, k := Index(s0, window, mark), Index(s0, window, time);
    BoundaryOrder(s0, window, i, k);
    BoundaryOrder(s0, window, k, i);
    if i < k {
      hide DemandRuntime;
      RuntimeCrossing(mark, time, scale, window, s0, i, k);
    }
  }

  lemma RuntimeCrossing(mark: int, time: int, scale: int, window: int, s0: int, i: nat, k: nat)
    requires window > 0 && 0 <= scale && s0 <= mark < Boundary(s0, window, k)
    requires i == Index(s0, window, mark)
    ensures DemandRuntime(mark, Boundary(s0, window, k), scale, true, time, window)
         == Scale(Boundary(s0, window, i + 1) - mark, scale) + (k - i - 1) * Scale(window, scale)
            + Scale(time - Boundary(s0, window, k), scale)
  {
    hide Scale, Whole, Index;
    var ws, full := Boundary(s0, window, k), Scale(window, scale);
    BoundaryOnGrid(s0, window, k);
    var n := Whole(ws - mark, window);
    var i', k' := FirstBoundary(s0, window, mark, ws, n);
    ScaleZero(scale);
    assert DemandRuntime(mark, ws, scale, true, time, window)
        == Scale(Boundary(s0, window, k') - mark, scale) + n * full + Scale(time - ws, scale);
    assert k' == i ==> n * full == (k - i - 1) * full + full;
  }
}
