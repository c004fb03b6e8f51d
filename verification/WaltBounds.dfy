/**
 Bounds kept by every accounted event, whatever speed the CPU runs at: a CPU never reports
 more load than time has passed, and a task never more than a window.
 */
module WaltBounds {
  import opened Arith
  import opened WaltModel
  import opened Samples
  import opened WindowGrid

  // The instant up to which a CPU's counters are complete.
  function Upto(rq: Rq): int { Max(rq.latestClock, rq.windowStart) }

  predicate CpuWindowed(rq: Rq, window: int) {
    0 < rq.windowStart && Upto(rq) < rq.windowStart + window && 0 < rq.prevWindowSize
  }

  predicate CpuBounded(rq: Rq) {
    && 0 <= rq.currSum <= Upto(rq) - rq.windowStart
    && 0 <= rq.prevSum <= rq.prevWindowSize
  }

  // Holds whenever the current frequency and the capacity are within their limits (ExecScaleRange).
  predicate ScaleOk(s: Speed) { 1 <= ExecScale(s) <= CAPACITY_SCALE }

  predicate TaskBounded(t: Task, s0: int, window: int)
    requires window > 0
  {
    && |t.samples| == HIST_SIZE
    && AllWithin(t.samples, window)
    && 0 <= t.demand <= MaxOf(t.samples)
    && (t.markStart == 0 ==> t.windowStart == 0 && t.sum == 0)
    && (t.markStart != 0 ==>
          && s0 <= t.markStart
          && t.windowStart == Grid(s0, window, t.markStart)
          && 0 <= t.sum <= t.markStart - t.windowStart)
  }

  // ----- CPU -----

  lemma CpuStepBounded(rq: Rq, t: Task, idle: bool, ev: Event, wallclock: int, s: Speed, cfg: Config)
    requires ValidConfig(cfg) && ScaleOk(s) && 0 < wallclock
    requires CpuWindowed(rq, cfg.window) && CpuBounded(rq) && Upto(rq) <= wallclock
    requires BusyForCpu(idle, ev) && t.markStart != 0 ==> t.markStart == Upto(rq)
    ensures var r := RavgRq(rq, t, idle, ev, wallclock, s, cfg);
            && CpuWindowed(r, cfg.window) && CpuBounded(r)
            && (t.markStart != wallclock ==> r.latestClock == wallclock)
  {
    if t.markStart != wallclock {
      var rq1 := UpdateWindowStart(rq, wallclock, cfg.window);
      var _ := WindowStartAdvance(rq, wallclock, cfg.window);
      if t.markStart != 0 && BusyForCpu(idle, ev) {
        var mark, ws, scale := t.markStart, rq1.windowStart, ExecScale(s);
        if ws <= mark {
          ScaleBound(wallclock - mark, scale);
        } else {
          ScaleBound(wallclock - ws, scale);
          ScaleBound(ws - mark, scale);
          ScaleBound(rq1.prevWindowSize, scale);
        }
      }
    }
  }

  /** A CPU's utilisation is its previous counter in units of 1/1024 of the window, that unit and the result both cut
      down; the cast to u16 drops nothing. For windows of at least 2^20 ns it is at most 1024, for windows of
      less than 1024 ns it is 0. */
  lemma CpuUtilBounded(rq: Rq)
    requires CpuBounded(rq) && rq.prevWindowSize >= 1
    ensures rq.prevWindowSize < 1024 ==> CpuUtil(rq) == 0
    ensures rq.prevWindowSize >= 1024 ==>
              var q := rq.prevWindowSize / 1024;
              CpuUtil(rq) * q <= rq.prevSum < CpuUtil(rq) * q + q && 0 <= CpuUtil(rq) <= 2047
    ensures rq.prevWindowSize >= 0x10_0000 ==>
              && CpuUtil(rq) == rq.prevSum / (rq.prevWindowSize / CAPACITY_SCALE)
              && 0 <= CpuUtil(rq) <= CAPACITY_SCALE
  {
    if rq.prevWindowSize >= 1024 {
      UtilOfFullWindow(rq.prevWindowSize);
      var q := rq.prevWindowSize / CAPACITY_SCALE;
      DivMonotone(rq.prevSum, rq.prevWindowSize, q);
      DivMonotone(0, rq.prevSum, q);
      DivBounds(rq.prevSum, q);
      DivBounds(rq.prevWindowSize, q);
      var u := rq.prevWindowSize / q;
      assert (u - 2048) * q == u * q - 2048 * q;
      MulSign(u - 2048, q);
    }
  }

  /** A fully busy window of w ns converts to at most 1024 exactly when the remainder dropped by the
      divisor's shift is smaller than the divisor; every window of at least 2^20 ns qualifies. */
  lemma UtilOfFullWindow(w: int)
    requires w >= CAPACITY_SCALE
    ensures w / (w / CAPACITY_SCALE) <= CAPACITY_SCALE <==> w % CAPACITY_SCALE < w / CAPACITY_SCALE
    ensures w >= 0x10_0000 ==> w / (w / CAPACITY_SCALE) <= CAPACITY_SCALE
  {
    var q := w / CAPACITY_SCALE;
    DivBounds(w, q);
    var u := w / q;
    assert (u - CAPACITY_SCALE) * q == u * q - CAPACITY_SCALE * q;
    MulSign(u - CAPACITY_SCALE, q);
  }

  // ----- task -----

  /** A piece that fits in the window is added without clamp and without wrap-around. */
  lemma AddNoClamp(t: Task, delta: int, scale: int, window: int)
    requires 0 <= delta && 0 <= scale <= CAPACITY_SCALE
    requires 0 <= t.sum && t.sum + delta <= window < 0x1_0000_0000
    ensures AddToTaskDemand(t, delta, scale, window) == t.(sum := t.sum + Scale(delta, scale))
    ensures 0 <= Scale(delta, scale) <= delta
  {
    ScaleBound(delta, scale);
  }

  /** A sum that outgrows the window is clamped to it. */
  lemma AddSaturates(t: Task, delta: int, scale: int, window: int)
    requires 0 <= delta && 0 <= scale && 0 <= t.sum && t.sum + Scale(delta, scale) < 0x1_0000_0000 && 0 <= window
    ensures AddToTaskDemand(t, delta, scale, window)
         == t.(sum := if t.sum + Scale(delta, scale) <= window then t.sum + Scale(delta, scale) else window)
  {
    ScaleFloor(delta, scale);
    hide Scale;
  }

  predicate Unclamped(t: Task, delta: int, scale: int, window: int) {
    AddToTaskDemand(t, delta, scale, window) == t.(sum := t.sum + Scale(delta, scale))
  }

  // Nothing that an update of a busy task adds or stores on its way is clamped or cut to 32 bits.
  predicate NeverClamps(t: Task, ws: int, scale: int, wallclock: int, cfg: Config)
    requires ValidConfig(cfg)
  {
    if ws <= t.markStart then
      Unclamped(t, wallclock - t.markStart, scale, cfg.window)
    else
      var n := Whole(ws - t.markStart, cfg.window);
      var first, full := ws - n * cfg.window - t.markStart, Scale(cfg.window, scale);
      var t1 := t.(sum := t.sum + Scale(first, scale));
      var t3 := UpdateHistory(UpdateHistory(t1, false, t1.sum, 1, cfg), false, full, n, cfg);
      && Unclamped(t, first, scale, cfg.window) && U32(full) == full
      && Unclamped(t3, wallclock - ws, scale, cfg.window)
  }

  lemma AddsUnclamped(t: Task, ws: int, scale: int, wallclock: int, cfg: Config, s0: int)
    requires ValidConfig(cfg) && 0 <= scale <= CAPACITY_SCALE && t.markStart <= wallclock
    requires OnGrid(s0, cfg.window, ws) && ws <= wallclock < ws + cfg.window
    requires TaskBounded(t, s0, cfg.window) && t.markStart != 0
    ensures NeverClamps(t, ws, scale, wallclock, cfg)
  {
    hide UpdateHistory, AddToTaskDemand;
    var window := cfg.window;
    if ws <= t.markStart {
      GridUnique(s0, window, ws, t.markStart);
      AddNoClamp(t, wallclock - t.markStart, scale, window);
    } else {
      var n := Whole(ws - t.markStart, window);
      var k, k' := FirstBoundary(s0, window, t.markStart, ws, n);
      var first := Boundary(s0, window, k');
      AddNoClamp(t, first - t.markStart, scale, window);
      var t1 := t.(sum := t.sum + Scale(first - t.markStart, scale));
      var t3 := PiecesBounded(t1, Scale(window, scale), n, scale, cfg);
      AddNoClamp(t3, wallclock - ws, scale, window);
    }
  }

  lemma HistoryBounded(t: Task, idle: bool, runtime: int, n: nat, cfg: Config)
    requires ValidConfig(cfg) && 0 <= runtime <= cfg.window
    requires |t.samples| == HIST_SIZE && AllWithin(t.samples, cfg.window) && 0 <= t.demand <= MaxOf(t.samples)
    ensures var r := UpdateHistory(t, idle, runtime, n, cfg);
            && |r.samples| == HIST_SIZE && AllWithin(r.samples, cfg.window) && 0 <= r.demand <= MaxOf(r.samples)
            && r.markStart == t.markStart && r.windowStart == t.windowStart
            && r.sum == if runtime == 0 || idle || n == 0 then t.sum else 0
  {
    if runtime != 0 && !idle && n != 0 {
      var r := UpdateHistory(t, idle, runtime, n, cfg);
      assert r.samples[HIST_SIZE - 1] == runtime;
      DemandWithinMax(cfg.policy, runtime, r.samples, cfg.window);
    }
  }

  lemma TaskStepBounded(rq: Rq, t: Task, idle: bool, ev: Event, isCurr: bool, wallclock: int, s: Speed,
                        cfg: Config, s0: int)
    requires ValidConfig(cfg) && ScaleOk(s) && 0 < s0 <= wallclock
    requires CpuWindowed(rq, cfg.window) && OnGrid(s0, cfg.window, rq.windowStart) && Upto(rq) <= wallclock
    requires TaskBounded(t, s0, cfg.window) && t.markStart <= wallclock
    requires idle ==> t.sum == 0
    ensures TaskBounded(RavgTask(rq, t, idle, ev, isCurr, wallclock, s, cfg), s0, cfg.window)
    ensures RavgTask(rq, t, idle, ev, isCurr, wallclock, s, cfg).markStart == wallclock
    ensures idle ==> RavgTask(rq, t, idle, ev, isCurr, wallclock, s, cfg).sum == 0
  {
    hide UpdateTaskDemand;
    if t.markStart != wallclock {
      var ws := UpdateWindowStart(rq, wallclock, cfg.window).windowStart;
      var n := WindowStartAdvance(rq, wallclock, cfg.window);
      GridStep(s0, cfg.window, rq.windowStart, n);
      GridUnique(s0, cfg.window, ws, wallclock);
      if t.markStart != 0 {
        DemandBounded(t, ws, ExecScale(s), idle, ev, isCurr, wallclock, cfg, s0);
      }
    }
  }

  lemma DemandBounded(t: Task, ws: int, scale: int, idle: bool, ev: Event, isCurr: bool, wallclock: int,
                      cfg: Config, s0: int)
    requires ValidConfig(cfg) && 1 <= scale <= CAPACITY_SCALE && t.markStart <= wallclock
    requires OnGrid(s0, cfg.window, ws) && ws <= wallclock < ws + cfg.window
    requires TaskBounded(t, s0, cfg.window) && t.markStart != 0 && (idle ==> t.sum == 0)
    ensures var r := UpdateTaskDemand(t, ws, scale, idle, ev, isCurr, wallclock, cfg);
            && |r.samples| == HIST_SIZE && AllWithin(r.samples, cfg.window) && 0 <= r.demand <= MaxOf(r.samples)
            && 0 <= r.sum <= wallclock - ws && (idle ==> r.sum == 0)
  {
    hide UpdateHistory, AddToTaskDemand, CrossWindows;
    if ws <= t.markStart {
      GridUnique(s0, cfg.window, ws, t.markStart);
      AddNoClamp(t, wallclock - t.markStart, scale, cfg.window);
    } else if !BusyForDemand(idle, ev, isCurr) {
      HistoryBounded(t, idle, t.sum, 1, cfg);
    } else {
      var _, _, _, _, _ := CrossPieces(t, ws, scale, wallclock, cfg, s0);
    }
  }

  /** The pieces of a busy span that crosses windows, from window k to the first boundary k' and on:
      nothing is clamped, and the counter is empty before the piece in the current window is added. */
  lemma CrossPieces(t: Task, ws: int, scale: int, wallclock: int, cfg: Config, s0: int)
    returns (k: nat, k': nat, n: nat, t1: Task, t3: Task)
    requires ValidConfig(cfg) && 0 <= scale <= CAPACITY_SCALE
    requires OnGrid(s0, cfg.window, ws) && ws <= wallclock < ws + cfg.window
    requires TaskBounded(t, s0, cfg.window) && 0 != t.markStart < ws
    ensures k == Index(s0, cfg.window, t.markStart) && k' + n == Index(s0, cfg.window, ws)
    ensures t.markStart <= Boundary(s0, cfg.window, k')
    ensures if t.markStart == Boundary(s0, cfg.window, k) then k' == k else k' == k + 1
    ensures t1 == t.(sum := t.sum + Scale(Boundary(s0, cfg.window, k') - t.markStart, scale))
    ensures 0 <= t1.sum <= cfg.window
    ensures t3 == UpdateHistory(UpdateHistory(t1, false, t1.sum, 1, cfg), false, Scale(cfg.window, scale), n, cfg)
    ensures |t3.samples| == HIST_SIZE && AllWithin(t3.samples, cfg.window)
    ensures t3.sum == 0 && 0 <= t3.demand <= MaxOf(t3.samples)
    ensures 0 <= Scale(wallclock - ws, scale) <= wallclock - ws
    ensures CrossWindows(t, ws, scale, false, wallclock, cfg) == t3.(sum := Scale(wallclock - ws, scale))
  {
    hide UpdateHistory, AddToTaskDemand;
    var window := cfg.window;
    n := Whole(ws - t.markStart, window);
    k, k' := FirstBoundary(s0, window, t.markStart, ws, n);
    var first := Boundary(s0, window, k');
    AddNoClamp(t, first - t.markStart, scale, window);
    t1 := t.(sum := t.sum + Scale(first - t.markStart, scale));
    t3 := PiecesBounded(t1, Scale(window, scale), n, scale, cfg);
    AddNoClamp(t3, wallclock - ws, scale, window);
  }

  lemma PiecesBounded(t1: Task, full: int, n: nat, scale: int, cfg: Config) returns (t3: Task)
    requires ValidConfig(cfg) && 0 <= scale <= CAPACITY_SCALE && full == Scale(cfg.window, scale)
    requires 0 <= t1.sum <= cfg.window
    requires |t1.samples| == HIST_SIZE && AllWithin(t1.samples, cfg.window) && 0 <= t1.demand <= MaxOf(t1.samples)
    ensures 0 <= full <= cfg.window && U32(full) == full
    ensures t3 == UpdateHistory(UpdateHistory(t1, false, t1.sum, 1, cfg), false, full, n, cfg)
    ensures |t3.samples| == HIST_SIZE && AllWithin(t3.samples, cfg.window)
    ensures t3.sum == 0 && 0 <= t3.demand <= MaxOf(t3.samples)
    ensures t3.markStart == t1.markStart && t3.windowStart == t1.windowStart
  {
    hide UpdateHistory, Scale;
    ScaleBound(cfg.window, scale);
    HistoryBounded(t1, false, t1.sum, 1, cfg);
    var t2 := UpdateHistory(t1, false, t1.sum, 1, cfg);
    HistoryBounded(t2, false, full, n, cfg);
    t3 := UpdateHistory(t2, false, full, n, cfg);
  }

  /** With the divisor computed from the window in use and a window of at least 2^20 ns, a task's
      scaled demand is at most 1024 and the cast to u16 drops nothing. */
  lemma DemandScaledBounded(t: Task, cfg: Config, s0: int)
    requires ValidConfig(cfg) && cfg.divisor == cfg.window / CAPACITY_SCALE && cfg.window >= 0x10_0000
    requires TaskBounded(t, s0, cfg.window)
    ensures U16(t.demand / cfg.divisor) == t.demand / cfg.divisor <= CAPACITY_SCALE
  {
    MaxOfIsMax(t.samples, cfg.window);
    UtilOfFullWindow(cfg.window);
    DivMonotone(t.demand, cfg.window, cfg.divisor);
    DivMonotone(0, t.demand, cfg.divisor);
  }

  // ----- demand -----

  // The demand is the policy's statistic of the ring as it stands.
  predicate DemandCurrent(t: Task, cfg: Config)
    requires ValidConfig(cfg)
  {
    && |t.samples| == HIST_SIZE
    && t.demand == Demand(cfg.policy, t.samples[HIST_SIZE - 1], t.samples)
    && t.demandScaled == U16(t.demand / cfg.divisor)
  }

  lemma HistoryKeepsDemand(t: Task, idle: bool, runtime: int, n: nat, cfg: Config)
    requires ValidConfig(cfg) && DemandCurrent(t, cfg)
    ensures DemandCurrent(UpdateHistory(t, idle, runtime, n, cfg), cfg)
  {
    hide Demand;
  }

  lemma DemandKept(rq: Rq, t: Task, idle: bool, ev: Event, isCurr: bool, time: int, s: Speed, cfg: Config)
    requires ValidConfig(cfg) && DemandCurrent(t, cfg)
    ensures DemandCurrent(RavgTask(rq, t, idle, ev, isCurr, time, s, cfg), cfg)
  {
    hide Demand, UpdateWindowStart, ExecScale, Scale, UpdateHistory;
    HistoryKeepsDemand(t, idle, t.sum, 1, cfg);
    var ws, scale := UpdateWindowStart(rq, time, cfg.window).windowStart, ExecScale(s);
    if t.markStart < ws {
      var n := Whole(ws - t.markStart, cfg.window);
      var t1 := AddToTaskDemand(t, ws - n * cfg.window - t.markStart, scale, cfg.window);
      HistoryKeepsDemand(t1, idle, t1.sum, 1, cfg);
      HistoryKeepsDemand(UpdateHistory(t1, idle, t1.sum, 1, cfg), idle, U32(Scale(cfg.window, scale)), n, cfg);
    }
  }
}
