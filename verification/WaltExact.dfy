/**
 One accounted event at full speed (scale 1024) against a run-time clock. A clock F gives the time
 a CPU has been busy (or a task has run) before each instant; F(b) - F(a) is the run time in [a, b).
 */
module WaltExact {
  import opened Arith
  import opened WaltModel
  import opened Samples
  import opened WindowGrid
  import opened WaltBounds

  type Clock = int -> int

  // The clock advances with real time over [a, b], or not at all.
  predicate Advances(F: Clock, a: int, b: int, running: bool) {
    forall x {:trigger F(x)} :: a <= x <= b ==> F(x) == F(a) + (if running then x - a else 0)
  }

  // The CPU's counters are its run times in the current and in the previous window.
  predicate CpuExact(rq: Rq, F: Clock) {
    && rq.currSum == F(Upto(rq)) - F(rq.windowStart)
    && rq.prevSum == F(rq.windowStart) - F(rq.windowStart - rq.prevWindowSize)
  }

  // Run time in each of the first k windows of the grid.
  function Windows(F: Clock, s0: int, window: int, k: nat): (r: seq<int>)
    ensures |r| == k
  {
    if k == 0 then []
    else Windows(F, s0, window, k - 1) + [F(Boundary(s0, window, k)) - F(Boundary(s0, window, k - 1))]
  }

  function NonZero(s: seq<int>): seq<int> {
    if s == [] then []
    else NonZero(s[..|s| - 1]) + if s[|s| - 1] == 0 then [] else [s[|s| - 1]]
  }

  // The last five windows in which there was any run time, zero-padded at the start.
  function Recent(F: Clock, s0: int, window: int, k: nat): seq<int> {
    LastN(Zeros() + NonZero(Windows(F, s0, window, k)), HIST_SIZE)
  }

  // The task's ring and running sum are its run times on the window grid.
  predicate TaskExact(t: Task, F: Clock, s0: int, window: int)
    requires window > 0
  {
    if t.markStart == 0 then
      t.samples == Zeros() && t.sum == 0
    else
      && s0 <= t.markStart
      && t.sum == F(t.markStart) - F(Grid(s0, window, t.markStart))
      && t.samples == Recent(F, s0, window, Index(s0, window, t.markStart))
  }

  // ----- CPU -----

  lemma CpuStepExact(rq: Rq, t: Task, idle: bool, ev: Event, wallclock: int, s: Speed, cfg: Config, F: Clock)
    requires ValidConfig(cfg) && ExecScale(s) == CAPACITY_SCALE && 0 < wallclock
    requires CpuWindowed(rq, cfg.window) && CpuExact(rq, F) && Upto(rq) <= wallclock
    requires BusyForCpu(idle, ev) && t.markStart != 0 ==> t.markStart == Upto(rq)
    requires Advances(F, Upto(rq), wallclock, BusyForCpu(idle, ev) && t.markStart != 0)
    ensures CpuExact(RavgRq(rq, t, idle, ev, wallclock, s, cfg), F)
  {
    if t.markStart != wallclock {
      var rq1 := UpdateWindowStart(rq, wallclock, cfg.window);
      var _ := WindowStartAdvance(rq, wallclock, cfg.window);
      RolledOverExact(rq, rq1, wallclock, cfg.window, F);
      if BusyForCpu(idle, ev) && t.markStart != 0 {
        BusyTimeExact(rq, rq1.(execScale := CAPACITY_SCALE), idle, ev, wallclock, cfg.window, F);
      } else {
        QuietTimeExact(rq, rq1, wallclock, cfg.window, F);
      }
    }
  }

  // Counters after the window advanced and before the event's own busy time is added.
  predicate RolledOver(rq: Rq, rq1: Rq, F: Clock) {
    var done := Upto(rq);
    if rq1.windowStart <= done then
      && rq1.currSum == F(done) - F(rq1.windowStart)
      && rq1.prevSum == F(rq1.windowStart) - F(rq1.windowStart - rq1.prevWindowSize)
    else
      && rq1.currSum == 0
      && rq1.prevSum == F(done) - F(Min(done, rq1.windowStart - rq1.prevWindowSize))
  }

  lemma RolledOverExact(rq: Rq, rq1: Rq, wallclock: int, window: int, F: Clock)
    requires CpuWindowed(rq, window) && CpuExact(rq, F) && Upto(rq) <= wallclock
    requires Advanced(rq, rq1, wallclock, window)
    ensures RolledOver(rq, rq1, F)
  {
  }

  lemma QuietTimeExact(rq: Rq, rq1: Rq, wallclock: int, window: int, F: Clock)
    requires CpuWindowed(rq, window) && Upto(rq) <= wallclock
    requires Advanced(rq, rq1, wallclock, window)
    requires RolledOver(rq, rq1, F) && Advances(F, Upto(rq), wallclock, false)
    ensures CpuExact(rq1, F)
  {
    var since := rq1.windowStart - rq1.prevWindowSize;
    assert F(wallclock) == F(Upto(rq));
    if Upto(rq) < rq1.windowStart {
      assert F(rq1.windowStart) == F(Upto(rq));
      assert Upto(rq) <= since ==> F(since) == F(Upto(rq));
    }
  }

  lemma BusyTimeExact(rq: Rq, rq1: Rq, idle: bool, ev: Event, wallclock: int, window: int, F: Clock)
    requires window > 0 && CpuWindowed(rq, window) && Upto(rq) <= wallclock
    requires BusyForCpu(idle, ev) && rq1.execScale == CAPACITY_SCALE
    requires Advanced(rq, rq1.(execScale := rq.execScale), wallclock, window)
    requires RolledOver(rq, rq1, F) && Advances(F, Upto(rq), wallclock, true)
    ensures CpuExact(UpdateCpuBusyTime(rq1, Upto(rq), idle, ev, wallclock), F)
  {
    var ws, done := rq1.windowStart, Upto(rq);
    ScaleIdentity(wallclock - done);
    ScaleIdentity(wallclock - ws);
    ScaleIdentity(ws - done);
    ScaleIdentity(rq1.prevWindowSize);
    assert F(wallclock) == F(done) + (wallclock - done);
    if done < ws {
      var since := ws - rq1.prevWindowSize;
      assert F(ws) == F(done) + (ws - done);
      assert done <= since ==> F(since) == F(done) + (since - done);
    }
  }

  // ----- task -----

  lemma {:induction false} NonZeroAppend(a: seq<int>, b: seq<int>)
    ensures NonZero(a + b) == NonZero(a) + NonZero(b)
  {
    if b == [] {
      assert a + b == a;
    } else {
      var front := b[..|b| - 1];
      NonZeroAppend(a, front);
      assert (a + b)[..|a + b| - 1] == a + front;
      assert NonZero(a + b) == NonZero(a + front) + if b[|b| - 1] == 0 then [] else [b[|b| - 1]];
    }
  }

  lemma {:induction false} NonZeroRepeat(v: int, n: nat)
    ensures NonZero(Repeat(v, n)) == if v == 0 then [] else Repeat(v, n)
  {
    if n > 0 {
      NonZeroRepeat(v, n - 1);
      assert Repeat(v, n)[..n - 1] == Repeat(v, n - 1);
    }
  }

  /** Windows that all lie where the clock advances uniformly hold the same run time. */
  lemma {:induction false} UniformWindows(F: Clock, s0: int, window: int, j: nat, k: nat, running: bool)
    requires window > 0 && j <= k
    requires Advances(F, Boundary(s0, window, j), Boundary(s0, window, k), running)
    ensures Windows(F, s0, window, k)
         == Windows(F, s0, window, j) + Repeat(if running then window else 0, k - j)
    decreases k - j
  {
    if j < k {
      BoundaryOrder(s0, window, j, k - 1);
      UniformWindows(F, s0, window, j, k - 1, running);
      assert F(Boundary(s0, window, k)) - F(Boundary(s0, window, k - 1)) == if running then window else 0;
    }
  }

  lemma RecentExtends(xs: seq<int>, runtime: int, n: nat)
    ensures LastN(Zeros() + NonZero(xs + Repeat(runtime, n)), HIST_SIZE)
         == LastN(LastN(Zeros() + NonZero(xs), HIST_SIZE) + (if runtime == 0 then [] else Repeat(runtime, n)), HIST_SIZE)
  {
    var pushed := if runtime == 0 then [] else Repeat(runtime, n);
    NonZeroAppend(xs, Repeat(runtime, n));
    NonZeroRepeat(runtime, n);
    LastNAbsorbs(Zeros() + NonZero(xs), pushed, HIST_SIZE);
    assert Zeros() + (NonZero(xs) + pushed) == (Zeros() + NonZero(xs)) + pushed;
  }

  lemma HistorySamples(t: Task, runtime: int, n: nat, cfg: Config)
    requires ValidConfig(cfg) && |t.samples| == HIST_SIZE
    ensures UpdateHistory(t, false, runtime, n, cfg).samples
         == LastN(t.samples + (if runtime == 0 then [] else Repeat(runtime, n)), HIST_SIZE)
  {
    assert t.samples + [] == t.samples;
    hide Demand;
  }

  /** Pushing n equal samples keeps the ring equal to the recent history. */
  lemma PushRecent(t: Task, runtime: int, n: nat, cfg: Config, F: Clock, s0: int, j: nat, k: nat)
    requires ValidConfig(cfg)
    requires t.samples == Recent(F, s0, cfg.window, j)
    requires Windows(F, s0, cfg.window, k) == Windows(F, s0, cfg.window, j) + Repeat(runtime, n)
    ensures UpdateHistory(t, false, runtime, n, cfg).samples == Recent(F, s0, cfg.window, k)
  {
    HistorySamples(t, runtime, n, cfg);
    RecentExtends(Windows(F, s0, cfg.window, j), runtime, n);
  }

  lemma PushOne(t: Task, cfg: Config, F: Clock, s0: int, j: nat, k: nat)
    requires ValidConfig(cfg)
    requires t.samples == Recent(F, s0, cfg.window, j)
    requires Windows(F, s0, cfg.window, k) == Windows(F, s0, cfg.window, j) + [t.sum]
    ensures UpdateHistory(t, false, t.sum, 1, cfg).samples == Recent(F, s0, cfg.window, k)
  {
    assert Repeat(t.sum, 1) == [t.sum];
    PushRecent(t, t.sum, 1, cfg, F, s0, j, k);
  }

  /** Idle windows change nothing. */
  lemma QuietWindows(F: Clock, s0: int, window: int, j: nat, k: nat)
    requires window > 0 && j <= k
    requires Advances(F, Boundary(s0, window, j), Boundary(s0, window, k), false)
    ensures Recent(F, s0, window, k) == Recent(F, s0, window, j)
  {
    UniformWindows(F, s0, window, j, k, false);
    NonZeroAppend(Windows(F, s0, window, j), Repeat(0, k - j));
    NonZeroRepeat(0, k - j);
    assert NonZero(Windows(F, s0, window, j)) + [] == NonZero(Windows(F, s0, window, j));
  }

  lemma AdvancesWithin(F: Clock, a: int, b: int, c: int, d: int, running: bool)
    requires Advances(F, a, d, running) && a <= b <= c <= d
    ensures Advances(F, b, c, running)
  {
    assert F(b) == F(a) + (if running then b - a else 0);
  }

  /** A task that was not running when the window advanced: its last window is closed. */
  lemma CloseWindow(t: Task, ws: int, wallclock: int, cfg: Config, F: Clock, s0: int)
    requires ValidConfig(cfg) && 0 < s0
    requires TaskBounded(t, s0, cfg.window) && TaskExact(t, F, s0, cfg.window)
    requires OnGrid(s0, cfg.window, ws) && 0 != t.markStart < ws <= wallclock
    requires Advances(F, t.markStart, wallclock, false)
    ensures UpdateHistory(t, false, t.sum, 1, cfg).samples == Recent(F, s0, cfg.window, Index(s0, cfg.window, ws))
    ensures UpdateHistory(t, false, t.sum, 1, cfg).sum == 0
  {
    var window := cfg.window;
    var k := Index(s0, window, t.markStart);
    var j := Index(s0, window, ws);
    BoundaryOrder(s0, window, j, k);
    BoundaryOrder(s0, window, k + 1, j);
    var next := Boundary(s0, window, k + 1);
    AdvancesWithin(F, t.markStart, next, ws, wallclock, false);
    assert F(next) == F(t.markStart);
    PushOne(t, cfg, F, s0, k, k + 1);
    QuietWindows(F, s0, window, k + 1, j);
  }

  /** A task that ran across window boundaries: the first window, the full ones and the current one
      each get their own run time. */
  lemma CrossExact(t: Task, ws: int, wallclock: int, cfg: Config, F: Clock, s0: int)
    requires ValidConfig(cfg) && 0 < s0
    requires TaskBounded(t, s0, cfg.window) && TaskExact(t, F, s0, cfg.window)
    requires OnGrid(s0, cfg.window, ws) && 0 != t.markStart < ws <= wallclock < ws + cfg.window
    requires Advances(F, t.markStart, wallclock, true)
    ensures var r := CrossWindows(t, ws, CAPACITY_SCALE, false, wallclock, cfg);
            && r.samples == Recent(F, s0, cfg.window, Index(s0, cfg.window, ws))
            && r.sum == F(wallclock) - F(ws)
  {
    var window := cfg.window;
    hide CrossWindows, UpdateHistory, AddToTaskDemand, Recent;
    var k, k', n, t1, t3 := CrossPieces(t, ws, CAPACITY_SCALE, wallclock, cfg, s0);
    var first := Boundary(s0, window, k');
    ScaleIdentity(first - t.markStart);
    ScaleIdentity(window);
    ScaleIdentity(wallclock - ws);
    BoundaryOrder(s0, window, k', k' + n);
    assert F(first) == F(t.markStart) + (first - t.markStart);
    assert F(ws) == F(t.markStart) + (ws - t.markStart);
    CrossSamples(t, t1, k, k', n, cfg, F, s0);
  }

  lemma CrossSamples(t: Task, t1: Task, k: nat, k': nat, n: nat, cfg: Config, F: Clock, s0: int)
    requires ValidConfig(cfg)
    requires t1.samples == Recent(F, s0, cfg.window, k) && (k' == k || k' == k + 1)
    requires t1.sum == F(Boundary(s0, cfg.window, k')) - F(Boundary(s0, cfg.window, k))
    requires t.markStart <= Boundary(s0, cfg.window, k')
    requires Advances(F, t.markStart, Boundary(s0, cfg.window, k' + n), true)
    ensures UpdateHistory(UpdateHistory(t1, false, t1.sum, 1, cfg), false, cfg.window, n, cfg).samples
         == Recent(F, s0, cfg.window, k' + n)
  {
    hide UpdateHistory, Recent, NonZero;
    var window := cfg.window;
    BoundaryOrder(s0, window, k', k' + n);
    FirstWindowExact(t1, k, k', cfg, F, s0);
    AdvancesWithin(F, t.markStart, Boundary(s0, window, k'), Boundary(s0, window, k' + n),
                   Boundary(s0, window, k' + n), true);
    UniformWindows(F, s0, window, k', k' + n, true);
    PushRecent(UpdateHistory(t1, false, t1.sum, 1, cfg), window, n, cfg, F, s0, k', k' + n);
  }

  lemma FirstWindowExact(t1: Task, k: nat, k': nat, cfg: Config, F: Clock, s0: int)
    requires ValidConfig(cfg)
    requires t1.samples == Recent(F, s0, cfg.window, k)
    requires k' == k || k' == k + 1
    requires t1.sum == F(Boundary(s0, cfg.window, k')) - F(Boundary(s0, cfg.window, k))
    ensures UpdateHistory(t1, false, t1.sum, 1, cfg).samples == Recent(F, s0, cfg.window, k')
  {
    hide UpdateHistory, Recent;
    if k' == k {
      PushNone(t1, cfg);
    } else {
      PushOne(t1, cfg, F, s0, k, k + 1);
    }
  }

  lemma PushNone(t: Task, cfg: Config)
    requires ValidConfig(cfg) && t.sum == 0
    ensures UpdateHistory(t, false, t.sum, 1, cfg) == t
  {
  }

  lemma TaskStepExact(rq: Rq, t: Task, ev: Event, isCurr: bool, wallclock: int, s: Speed,
                      cfg: Config, F: Clock, s0: int)
    requires ValidConfig(cfg) && ExecScale(s) == CAPACITY_SCALE && 0 < s0 <= wallclock
    requires CpuWindowed(rq, cfg.window) && OnGrid(s0, cfg.window, rq.windowStart) && Upto(rq) <= wallclock
    requires TaskBounded(t, s0, cfg.window) && TaskExact(t, F, s0, cfg.window) && t.markStart <= wallclock
    requires if t.markStart == 0 then Advances(F, s0, wallclock, false)
             else Advances(F, t.markStart, wallclock, BusyForDemand(false, ev, isCurr))
    ensures TaskExact(RavgTask(rq, t, false, ev, isCurr, wallclock, s, cfg), F, s0, cfg.window)
  {
    hide UpdateTaskDemand, AddToTaskDemand, Recent;
    if t.markStart != wallclock {
      var window := cfg.window;
      var ws := UpdateWindowStart(rq, wallclock, window).windowStart;
      var n := WindowStartAdvance(rq, wallclock, window);
      GridStep(s0, window, rq.windowStart, n);
      GridUnique(s0, window, ws, wallclock);
      if t.markStart == 0 {
        FirstSightExact(t, ws, wallclock, cfg, F, s0);
      } else {
        DemandExact(t, ws, ev, isCurr, wallclock, cfg, F, s0);
      }
    }
  }

  lemma FirstSightExact(t: Task, ws: int, wallclock: int, cfg: Config, F: Clock, s0: int)
    requires ValidConfig(cfg) && OnGrid(s0, cfg.window, ws) && ws <= wallclock
    requires Advances(F, s0, wallclock, false) && t.samples == Zeros()
    ensures t.samples == Recent(F, s0, cfg.window, Index(s0, cfg.window, ws))
    ensures F(wallclock) == F(ws)
  {
    var j := Index(s0, cfg.window, ws);
    AdvancesWithin(F, s0, s0, ws, wallclock, false);
    QuietWindows(F, s0, cfg.window, 0, j);
    assert Zeros() + NonZero(Windows(F, s0, cfg.window, 0)) == Zeros();
  }

  lemma DemandExact(t: Task, ws: int, ev: Event, isCurr: bool, wallclock: int, cfg: Config, F: Clock, s0: int)
    requires ValidConfig(cfg) && 0 < s0 && t.markStart != 0
    requires TaskBounded(t, s0, cfg.window) && TaskExact(t, F, s0, cfg.window) && t.markStart <= wallclock
    requires OnGrid(s0, cfg.window, ws) && ws <= wallclock < ws + cfg.window
    requires Advances(F, t.markStart, wallclock, BusyForDemand(false, ev, isCurr))
    ensures var r := UpdateTaskDemand(t, ws, CAPACITY_SCALE, false, ev, isCurr, wallclock, cfg);
            && r.samples == Recent(F, s0, cfg.window, Index(s0, cfg.window, ws))
            && r.sum == F(wallclock) - F(ws)
  {
    if ws <= t.markStart {
      GridUnique(s0, cfg.window, ws, t.markStart);
      AddNoClamp(t, wallclock - t.markStart, CAPACITY_SCALE, cfg.window);
      ScaleIdentity(wallclock - t.markStart);
      assert F(wallclock) == F(wallclock);
    } else if !BusyForDemand(false, ev, isCurr) {
      CloseWindow(t, ws, wallclock, cfg, F, s0);
      assert F(wallclock) == F(ws);
    } else {
      CrossExact(t, ws, wallclock, cfg, F, s0);
    }
  }

  // ----- clocks that agree on the past -----

  lemma {:induction false} WindowsAgree(F: Clock, G: Clock, s0: int, window: int, k: nat, upto: int)
    requires window > 0 && Boundary(s0, window, k) <= upto
    requires forall x {:trigger F(x)} {:trigger G(x)} :: x <= upto ==> F(x) == G(x)
    ensures Windows(F, s0, window, k) == Windows(G, s0, window, k)
  {
    if k > 0 {
      WindowsAgree(F, G, s0, window, k - 1, upto);
    }
  }

  lemma TaskExactAgree(t: Task, F: Clock, G: Clock, s0: int, window: int, upto: int)
    requires window > 0 && TaskExact(t, F, s0, window) && t.markStart <= upto
    requires forall x {:trigger F(x)} {:trigger G(x)} :: x <= upto ==> F(x) == G(x)
    ensures TaskExact(t, G, s0, window)
  {
    if t.markStart != 0 {
      WindowsAgree(F, G, s0, window, Index(s0, window, t.markStart), upto);
    }
  }
}
