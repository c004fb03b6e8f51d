/**
 What the counters mean below full speed. Every update scales the time it accounts and cuts the result
 down to whole units, so after any run a counter stands for the run time of its window at the speeds the
 updates saw, less at most one unit an update. Run times and numbers of updates are read off the event log.
 */
module WaltScaled {
  import opened Arith
  import opened WaltModel
  import opened Samples
  import opened WindowGrid
  import opened WaltBounds
  import opened WaltExact
  import opened WaltMachine
  import opened WaltInvariant
  import opened WaltRuns

  // sum units stand for busy ns at speeds of lo to hi out of 1024, cut down to whole units at most n times.
  predicate Within(sum: int, busy: int, n: int, lo: int, hi: int) {
    1024 * sum <= hi * busy && lo * busy <= 1024 * sum + 1023 * n
  }

  lemma WithinAdd(a: int, x: int, m: int, b: int, y: int, n: int, lo: int, hi: int)
    requires Within(a, x, m, lo, hi) && Within(b, y, n, lo, hi)
    ensures Within(a + b, x + y, m + n, lo, hi)
  {
    assert hi * (x + y) == hi * x + hi * y;
    assert lo * (x + y) == lo * x + lo * y;
  }

  lemma WithinPiece(d: int, s: int, lo: int, hi: int)
    requires 0 <= d && 0 <= lo <= s <= hi
    ensures Within(Scale(d, s), d, 1, lo, hi)
  {
    ScaleFloor(d, s);
    MulMonotone(lo, s, d);
    MulMonotone(s, hi, d);
  }

  lemma WithinZero(n: int, lo: int, hi: int)
    requires 0 <= n
    ensures Within(0, 0, n, lo, hi)
  {
  }

  lemma WithinMore(a: int, x: int, m: int, n: int, lo: int, hi: int)
    requires Within(a, x, m, lo, hi) && m <= n
    ensures Within(a, x, n, lo, hi)
  {
  }

  // ----- counting updates -----

  // Actions on CPU c later than a and not later than b.
  function UpdatesIn(h: History, c: nat, a: int, b: int): nat
    decreases |h.log|
  {
    if h.log == [] then 0
    else
      var last := h.log[|h.log| - 1];
      UpdatesIn(h.(log := h.log[..|h.log| - 1]), c, a, b)
      + if !last.Request? && last.cpu == c && a < last.time <= b then 1 else 0
  }

  // Actions on a CPU that was running p, later than a and not later than b.
  function TaskUpdatesIn(h: History, p: nat, a: int, b: int): nat
    decreases |h.log|
  {
    if h.log == [] then 0
    else
      var last := h.log[|h.log| - 1];
      var front := h.(log := h.log[..|h.log| - 1]);
      TaskUpdatesIn(front, p, a, b)
      + if !last.Request? && last.cpu < |h.curr0| && CurrAfter(front, last.cpu) == p && a < last.time <= b then 1 else 0
  }

  function UpdatesUpTo(h: History, c: nat, x: int): nat
    decreases |h.log|
  {
    if h.log == [] then 0
    else
      var last := h.log[|h.log| - 1];
      UpdatesUpTo(h.(log := h.log[..|h.log| - 1]), c, x)
      + if !last.Request? && last.cpu == c && last.time <= x then 1 else 0
  }

  function TaskUpdatesUpTo(h: History, p: nat, x: int): nat
    decreases |h.log|
  {
    if h.log == [] then 0
    else
      var last := h.log[|h.log| - 1];
      var front := h.(log := h.log[..|h.log| - 1]);
      TaskUpdatesUpTo(front, p, x)
      + if !last.Request? && last.cpu < |h.curr0| && CurrAfter(front, last.cpu) == p && last.time <= x then 1 else 0
  }

  // How many updates there have been up to each instant.
  type Tally = int -> int

  ghost function CpuTally(h: History, c: nat): Tally {
    x => UpdatesUpTo(h, c, x)
  }

  ghost function TaskTally(h: History, p: nat): Tally {
    x => TaskUpdatesUpTo(h, p, x)
  }

  ghost predicate Rising(U: Tally) {
    forall x, y {:trigger U(x), U(y)} :: x <= y ==> U(x) <= U(y)
  }

  // U' is U after one more update at time, or after none if count is off.
  ghost predicate Tallied(U: Tally, U': Tally, time: int, count: bool) {
    forall x {:trigger U'(x)} {:trigger U(x)} :: U'(x) == U(x) + if count && time <= x then 1 else 0
  }

  lemma {:induction false} UpdatesSplit(h: History, c: nat, a: int, b: int)
    requires a <= b
    ensures UpdatesIn(h, c, a, b) == UpdatesUpTo(h, c, b) - UpdatesUpTo(h, c, a)
    decreases |h.log|
  {
    if h.log != [] {
      UpdatesSplit(h.(log := h.log[..|h.log| - 1]), c, a, b);
    }
  }

  lemma {:induction false} TaskUpdatesSplit(h: History, p: nat, a: int, b: int)
    requires a <= b
    ensures TaskUpdatesIn(h, p, a, b) == TaskUpdatesUpTo(h, p, b) - TaskUpdatesUpTo(h, p, a)
    decreases |h.log|
  {
    if h.log != [] {
      TaskUpdatesSplit(h.(log := h.log[..|h.log| - 1]), p, a, b);
    }
  }

  lemma {:induction false} UpdatesRise(h: History, c: nat, x: int, y: int)
    requires x <= y
    ensures UpdatesUpTo(h, c, x) <= UpdatesUpTo(h, c, y)
    ensures TaskUpdatesUpTo(h, c, x) <= TaskUpdatesUpTo(h, c, y)
    decreases |h.log|
  {
    if h.log != [] {
      UpdatesRise(h.(log := h.log[..|h.log| - 1]), c, x, y);
    }
  }

  lemma TalliesRise(h: History, c: nat)
    ensures Rising(CpuTally(h, c)) && Rising(TaskTally(h, c))
  {
    forall x, y | x <= y
      ensures UpdatesUpTo(h, c, x) <= UpdatesUpTo(h, c, y) && TaskUpdatesUpTo(h, c, x) <= TaskUpdatesUpTo(h, c, y)
    {
      UpdatesRise(h, c, x, y);
    }
  }

  lemma CpuTallyAppend(h: History, a: Action, c: nat)
    requires a.Request? || 0 < a.time
    ensures Tallied(CpuTally(h, c), CpuTally(Append(h, a), c), if a.Request? then 0 else a.time, !a.Request? && a.cpu == c)
  {
    FrontOfAppend(h, a);
  }

  lemma TaskTallyAppend(h: History, a: Action, p: nat)
    requires a.Request? || 0 < a.time
    ensures Tallied(TaskTally(h, p), TaskTally(Append(h, a), p), if a.Request? then 0 else a.time,
                    !a.Request? && a.cpu < |h.curr0| && CurrAfter(h, a.cpu) == p)
  {
    FrontOfAppend(h, a);
  }

  // ----- one CPU, one event -----

  predicate CpuScaled(rq: Rq, F: Clock, U: Tally, lo: int, hi: int) {
    && Within(rq.currSum, F(Upto(rq)) - F(rq.windowStart), U(Upto(rq)) - U(rq.windowStart), lo, hi)
    && Within(rq.prevSum, F(rq.windowStart) - F(rq.windowStart - rq.prevWindowSize),
              U(rq.windowStart) - U(rq.windowStart - rq.prevWindowSize) + 1, lo, hi)
  }

  // Counters after the window advanced and before the event's own busy time is added.
  predicate RolledOverScaled(rq: Rq, rq1: Rq, F: Clock, U: Tally, lo: int, hi: int) {
    var done, since := Upto(rq), rq1.windowStart - rq1.prevWindowSize;
    if rq1.windowStart <= done then
      && Within(rq1.currSum, F(done) - F(rq1.windowStart), U(done) - U(rq1.windowStart), lo, hi)
      && Within(rq1.prevSum, F(rq1.windowStart) - F(since), U(rq1.windowStart) - U(since) + 1, lo, hi)
    else
      && rq1.currSum == 0
      && Within(rq1.prevSum, F(done) - F(Min(done, since)), U(done) - U(Min(done, since)), lo, hi)
  }

  lemma RollOverScaled(rq: Rq, rq1: Rq, wallclock: int, window: int, F: Clock, U: Tally, lo: int, hi: int)
    requires CpuWindowed(rq, window) && CpuScaled(rq, F, U, lo, hi) && Upto(rq) <= wallclock
    requires Advanced(rq, rq1, wallclock, window)
    ensures RolledOverScaled(rq, rq1, F, U, lo, hi)
  {
    hide Within;
    WithinZero(0, lo, hi);
  }

  lemma QuietScaled(rq: Rq, rq1: Rq, wallclock: int, window: int, F: Clock, U: Tally, U': Tally, count: bool, lo: int, hi: int)
    requires CpuWindowed(rq, window) && Upto(rq) <= wallclock
    requires Advanced(rq, rq1, wallclock, window) && 0 < rq1.prevWindowSize
    requires RolledOverScaled(rq, rq1, F, U, lo, hi) && Advances(F, Upto(rq), wallclock, false)
    requires Rising(U) && Rising(U') && Tallied(U, U', wallclock, count)
    ensures CpuScaled(rq1, F, U', lo, hi)
  {
    var done, ws, since := Upto(rq), rq1.windowStart, rq1.windowStart - rq1.prevWindowSize;
    TallyFacts(U, U', count, done, ws, wallclock, since);
    assert F(wallclock) == F(done) && (done < ws ==> F(ws) == F(done) && F(Min(done, since)) == F(since));
    hide Within, Rising, Tallied, Advances, Advanced;
    if ws <= done {
      WithinMore(rq1.currSum, F(done) - F(ws), U(done) - U(ws), U'(wallclock) - U'(ws), lo, hi);
      WithinMore(rq1.prevSum, F(ws) - F(since), U(ws) - U(since) + 1, U'(ws) - U'(since) + 1, lo, hi);
    } else {
      WithinZero(U'(wallclock) - U'(ws), lo, hi);
      WithinMore(rq1.prevSum, F(ws) - F(since), U(done) - U(Min(done, since)), U'(ws) - U'(since) + 1, lo, hi);
    }
  }

  // What a tally and its successor have in common around one event.
  predicate TallyStep(U: Tally, U': Tally, count: bool, done: int, ws: int, wallclock: int, since: int) {
    && U'(since) == U(since) && U'(wallclock) == U(wallclock) + (if count then 1 else 0)
    && U(done) <= U(wallclock) && U(ws) <= U(wallclock) && U'(ws) <= U'(wallclock)
    && (ws < wallclock ==> U'(ws) == U(ws)) && U(ws) <= U'(ws)
    && (done <= ws ==> U(done) <= U(ws)) && (ws <= done ==> U(ws) <= U(done) && U'(wallclock) - U'(ws) >= U(done) - U(ws))
    && U(since) <= U(ws) && (done <= since ==> U(done) <= U(since))
  }

  lemma TallyFacts(U: Tally, U': Tally, count: bool, done: int, ws: int, wallclock: int, since: int)
    requires Rising(U) && Rising(U') && Tallied(U, U', wallclock, count) && since < ws <= wallclock && done <= wallclock
    ensures TallyStep(U, U', count, done, ws, wallclock, since)
  {
    assert ws <= done && ws == wallclock ==> done == ws;
  }

  lemma BusyScaled(rq: Rq, rq1: Rq, idle: bool, ev: Event, wallclock: int, window: int, F: Clock, U: Tally, U': Tally,
                   lo: int, hi: int)
    requires window > 0 && CpuWindowed(rq, window) && Upto(rq) < wallclock && 0 < rq1.prevWindowSize
    requires BusyForCpu(idle, ev) && 0 <= lo <= rq1.execScale <= hi
    requires Advanced(rq, rq1.(execScale := rq.execScale), wallclock, window)
    requires RolledOverScaled(rq, rq1, F, U, lo, hi) && Advances(F, Upto(rq), wallclock, true)
    requires Rising(U) && Rising(U') && Tallied(U, U', wallclock, true)
    ensures CpuScaled(UpdateCpuBusyTime(rq1, Upto(rq), idle, ev, wallclock), F, U', lo, hi)
  {
    var ws, done := rq1.windowStart, Upto(rq);
    TallyFacts(U, U', true, done, ws, wallclock, ws - rq1.prevWindowSize);
    BusyUpdateIs(rq, rq1, idle, ev, wallclock, window, F, U, lo, hi);
    hide *;
    if ws <= done {
      BusyInWindow(rq, rq1, wallclock, F, U, U', lo, hi);
    } else {
      BusyAcross(rq, rq1, wallclock, F, U, U', lo, hi);
    }
  }

  lemma BusyUpdateIs(rq: Rq, rq1: Rq, idle: bool, ev: Event, wallclock: int, window: int, F: Clock, U: Tally,
                     lo: int, hi: int)
    requires Advanced(rq, rq1.(execScale := rq.execScale), wallclock, window) && BusyForCpu(idle, ev)
    requires RolledOverScaled(rq, rq1, F, U, lo, hi)
    ensures rq1.latestClock == wallclock && rq1.windowStart <= wallclock
    ensures var ws, done := rq1.windowStart, Upto(rq);
            var piece := if ws - done >= rq1.prevWindowSize then rq1.prevWindowSize else ws - done;
            UpdateCpuBusyTime(rq1, done, idle, ev, wallclock) ==
            if ws <= done then rq1.(currSum := rq1.currSum + Scale(wallclock - done, rq1.execScale))
            else rq1.(prevSum := rq1.prevSum + Scale(piece, rq1.execScale), currSum := Scale(wallclock - ws, rq1.execScale))
  {
    hide Within, Scale;
  }

  lemma BusyInWindow(rq: Rq, rq1: Rq, wallclock: int, F: Clock, U: Tally, U': Tally, lo: int, hi: int)
    requires rq1.windowStart <= Upto(rq) < wallclock && 0 <= lo <= rq1.execScale <= hi
    requires rq1.latestClock == wallclock && 0 < rq1.prevWindowSize
    requires RolledOverScaled(rq, rq1, F, U, lo, hi) && Advances(F, Upto(rq), wallclock, true)
    requires TallyStep(U, U', true, Upto(rq), rq1.windowStart, wallclock, rq1.windowStart - rq1.prevWindowSize)
    ensures CpuScaled(rq1.(currSum := rq1.currSum + Scale(wallclock - Upto(rq), rq1.execScale)), F, U', lo, hi)
  {
    hide Within, Scale;
    var ws, done := rq1.windowStart, Upto(rq);
    assert F(wallclock) == F(done) + (wallclock - done);
    PieceAdded(rq1.currSum, F(done) - F(ws), U(done) - U(ws), wallclock - done, U'(wallclock) - U'(ws), rq1.execScale, lo, hi);
  }

  lemma BusyAcross(rq: Rq, rq1: Rq, wallclock: int, F: Clock, U: Tally, U': Tally, lo: int, hi: int)
    requires Upto(rq) < rq1.windowStart <= wallclock && 0 <= lo <= rq1.execScale <= hi
    requires rq1.latestClock == wallclock && 0 < rq1.prevWindowSize
    requires RolledOverScaled(rq, rq1, F, U, lo, hi) && Advances(F, Upto(rq), wallclock, true)
    requires TallyStep(U, U', true, Upto(rq), rq1.windowStart, wallclock, rq1.windowStart - rq1.prevWindowSize)
    ensures var ws := rq1.windowStart;
            var piece := if ws - Upto(rq) >= rq1.prevWindowSize then rq1.prevWindowSize else ws - Upto(rq);
            CpuScaled(rq1.(prevSum := rq1.prevSum + Scale(piece, rq1.execScale),
                           currSum := Scale(wallclock - ws, rq1.execScale)), F, U', lo, hi)
  {
    hide Within, Scale;
    var ws, done, scale := rq1.windowStart, Upto(rq), rq1.execScale;
    var since := ws - rq1.prevWindowSize;
    var piece := if ws - done >= rq1.prevWindowSize then rq1.prevWindowSize else ws - done;
    assert F(wallclock) == F(done) + (wallclock - done) && F(ws) == F(done) + (ws - done);
    assert done <= since ==> F(since) == F(done) + (since - done);
    assert F(ws) - F(since) == F(done) - F(Min(done, since)) + piece;
    PieceAdded(rq1.prevSum, F(done) - F(Min(done, since)), U(done) - U(Min(done, since)), piece,
               U'(ws) - U'(since) + 1, scale, lo, hi);
    FreshPiece(wallclock - ws, U'(wallclock) - U'(ws), scale, lo, hi);
  }

  lemma PieceAdded(sum: int, busy: int, m: int, d: int, n: int, s: int, lo: int, hi: int)
    requires Within(sum, busy, m, lo, hi) && 0 <= d && 0 <= lo <= s <= hi && m + 1 <= n
    ensures Within(sum + Scale(d, s), busy + d, n, lo, hi)
  {
    WithinPiece(d, s, lo, hi);
    WithinAdd(sum, busy, m, Scale(d, s), d, 1, lo, hi);
    hide Scale;
    WithinMore(sum + Scale(d, s), busy + d, m + 1, n, lo, hi);
  }

  /** The first piece of a window: one cut, or none if it is empty. */
  lemma FreshPiece(d: int, n: int, s: int, lo: int, hi: int)
    requires 0 <= d && 0 <= lo <= s <= hi && 0 <= n && (d > 0 ==> 1 <= n)
    ensures Within(Scale(d, s), d, n, lo, hi)
  {
    if d == 0 {
      ScaleZero(s);
      hide Scale;
    } else {
      WithinPiece(d, s, lo, hi);
      hide Scale;
      WithinMore(Scale(d, s), d, 1, n, lo, hi);
    }
  }

  /** One event keeps both counters within what the clock and the tally say. */
  lemma CpuStepScaled(rq: Rq, t: Task, idle: bool, ev: Event, wallclock: int, s: Speed, cfg: Config, F: Clock,
                      U: Tally, U': Tally, count: bool, lo: int, hi: int)
    requires ValidConfig(cfg) && 0 < wallclock && 0 <= lo <= ExecScale(s) <= hi
    requires CpuWindowed(rq, cfg.window) && CpuScaled(rq, F, U, lo, hi) && Upto(rq) <= wallclock
    requires BusyForCpu(idle, ev) && t.markStart != 0 ==> t.markStart == Upto(rq)
    requires Advances(F, Upto(rq), wallclock, BusyForCpu(idle, ev) && t.markStart != 0)
    requires Rising(U) && Rising(U') && Tallied(U, U', wallclock, count) && (BusyForCpu(idle, ev) ==> count)
    requires t.markStart == wallclock ==> Upto(rq) == wallclock
    ensures CpuScaled(RavgRq(rq, t, idle, ev, wallclock, s, cfg), F, U', lo, hi)
  {
    hide ExecScale;
    if t.markStart == wallclock {
      NothingScaled(rq, wallclock, F, U, U', count, lo, hi);
    } else {
      var rq1 := UpdateWindowStart(rq, wallclock, cfg.window);
      var _ := WindowStartAdvance(rq, wallclock, cfg.window);
      RollOverScaled(rq, rq1, wallclock, cfg.window, F, U, lo, hi);
      hide UpdateWindowStart, CpuScaled, RolledOverScaled;
      if BusyForCpu(idle, ev) && t.markStart != 0 {
        SpeedNotRead(rq, rq1, ExecScale(s), F, U, lo, hi);
        BusyScaled(rq, rq1.(execScale := ExecScale(s)), idle, ev, wallclock, cfg.window, F, U, U', lo, hi);
      } else {
        QuietScaled(rq, rq1, wallclock, cfg.window, F, U, U', count, lo, hi);
        if t.markStart != 0 {
          SpeedOnly(rq1, ExecScale(s), F, U', lo, hi);
        }
      }
    }
  }

  lemma SpeedNotRead(rq: Rq, rq1: Rq, scale: int, F: Clock, U: Tally, lo: int, hi: int)
    requires RolledOverScaled(rq, rq1, F, U, lo, hi)
    ensures RolledOverScaled(rq, rq1.(execScale := scale), F, U, lo, hi)
  {
    hide Within;
  }

  lemma SpeedOnly(rq: Rq, scale: int, F: Clock, U: Tally, lo: int, hi: int)
    requires CpuScaled(rq, F, U, lo, hi)
    ensures CpuScaled(rq.(execScale := scale), F, U, lo, hi)
  {
    hide Within;
  }

  lemma NothingScaled(rq: Rq, time: int, F: Clock, U: Tally, U': Tally, count: bool, lo: int, hi: int)
    requires CpuScaled(rq, F, U, lo, hi) && 0 < rq.prevWindowSize && rq.windowStart <= Upto(rq) <= time
    requires Rising(U) && Rising(U') && Tallied(U, U', time, count)
    ensures CpuScaled(rq, F, U', lo, hi)
  {
    hide Within;
    var ws, since := rq.windowStart, rq.windowStart - rq.prevWindowSize;
    WithinMore(rq.currSum, F(Upto(rq)) - F(ws), U(Upto(rq)) - U(ws), U'(Upto(rq)) - U'(ws), lo, hi);
    WithinMore(rq.prevSum, F(ws) - F(since), U(ws) - U(since) + 1, U'(ws) - U'(since) + 1, lo, hi);
  }

  // ----- CPUs on runs -----

  // Every update of CPU c sees a speed between lo and hi.
  predicate SpeedsOn(log: seq<Action>, c: nat, lo: int, hi: int) {
    forall i :: 0 <= i < |log| && !log[i].Request? && log[i].cpu == c ==> SpeedsWithin(log[i], lo, hi)
  }

  predicate SpeedsWithin(a: Action, lo: int, hi: int)
    requires !a.Request?
  {
    match a
    case Switch(_, _, _, put, pick) => lo <= ExecScale(put) <= hi && lo <= ExecScale(pick) <= hi
    case Tick(_, _, speed) => lo <= ExecScale(speed) <= hi
    case IrqWork(_, _, speed) => lo <= ExecScale(speed) <= hi
  }

  ghost predicate CpuScaledIn(m: Machine, h: History, c: nat, lo: int, hi: int)
    requires c < |h.curr0| == |m.cpus|
  {
    h.s0 <= m.cpus[c].windowStart && CpuScaled(m.cpus[c], CpuClock(h, c), CpuTally(h, c), lo, hi)
  }

  lemma TouchCpuScaled(m: Machine, c: nat, p: nat, ev: Event, time: int, s: Speed, F: Clock, U: Tally, U': Tally,
                       count: bool, lo: int, hi: int)
    requires WellFormed(m) && c < |m.cpus| && p < |m.tasks| && 0 < time && 0 <= lo <= ExecScale(s) <= hi
    requires CpuWindowed(m.cpus[c], m.cfg.window) && CpuScaled(m.cpus[c], F, U, lo, hi) && Upto(m.cpus[c]) <= time
    requires !ev.PickNextTask? && m.tasks[p].markStart != 0 ==> m.tasks[p].markStart == Upto(m.cpus[c])
    requires m.tasks[p].markStart == time ==> Upto(m.cpus[c]) == time
    requires Advances(F, Upto(m.cpus[c]), time, BusyForCpu(p in m.idle, ev) && m.tasks[p].markStart != 0)
    requires Rising(U) && Rising(U') && Tallied(U, U', time, count) && (BusyForCpu(p in m.idle, ev) ==> count)
    ensures CpuScaled(Touch(m, c, p, ev, time, s).cpus[c], F, U', lo, hi)
    ensures m.cpus[c].windowStart <= Touch(m, c, p, ev, time, s).cpus[c].windowStart
  {
    CpuStepScaled(m.cpus[c], m.tasks[p], p in m.idle, ev, time, s, m.cfg, F, U, U', count, lo, hi);
    hide CpuScaled, Rising, Tallied, Advances;
    var _ := WindowStartAdvance(m.cpus[c], time, m.cfg.window);
  }

  /** The CPU an action concerns, against the clock of the log before and the tally of the log after it. */
  lemma ActedCpuScaled(m: Machine, h: History, a: Action, lo: int, hi: int)
    requires Inv(m, h) && Enabled(m, a) && !a.Request? && 0 <= lo && SpeedsWithin(a, lo, hi)
    requires CpuScaledIn(m, h, a.cpu, lo, hi)
    ensures a.cpu < |Next(m, a).cpus|
    ensures CpuScaled(Next(m, a).cpus[a.cpu], CpuClock(h, a.cpu), CpuTally(Append(h, a), a.cpu), lo, hi)
    ensures h.s0 <= Next(m, a).cpus[a.cpu].windowStart
  {
    hide RavgRq, RavgTask, CpuScaled, CpuClock, CpuTally, Rising, Tallied, Advances;
    var c := a.cpu;
    var F, U, U' := CpuClock(h, c), CpuTally(h, c), CpuTally(Append(h, a), c);
    assert CpuOk(m, c);
    CpuClockAdvances(m, h, c, a.time);
    TalliesRise(h, c);
    TalliesRise(Append(h, a), c);
    CpuTallyAppend(h, a, c);
    if !a.Switch? {
      TouchCpuScaled(m, c, m.curr[c], TaskUpdate, a.time, a.speed, F, U, U', true, lo, hi);
    } else if a.next == m.curr[c] {
      TouchCpuScaled(m, c, a.next, TaskUpdate, a.time, a.putSpeed, F, U, U', true, lo, hi);
    } else {
      TouchCpuScaled(m, c, m.curr[c], PutPrevTask, a.time, a.putSpeed, F, U, U', true, lo, hi);
      TouchFacts(m, c, m.curr[c], PutPrevTask, a.time, a.putSpeed);
      var m1 := Touch(m, c, m.curr[c], PutPrevTask, a.time, a.putSpeed);
      NoTime(F, a.time);
      SameTally(U', a.time);
      TouchCpuScaled(m1, c, a.next, PickNextTask, a.time, a.pickSpeed, F, U', U', false, lo, hi);
    }
  }

  lemma NoTime(F: Clock, time: int)
    ensures Advances(F, time, time, false)
  {
  }

  lemma SameTally(U: Tally, time: int)
    ensures Tallied(U, U, time, false)
  {
  }

  lemma NextKeepsCpuScaled(m: Machine, h: History, a: Action, c: nat, lo: int, hi: int)
    requires Inv(m, h) && Enabled(m, a) && AdoptionFits(m, a) && 0 <= lo && c < |m.cpus|
    requires !a.Request? && a.cpu == c ==> SpeedsWithin(a, lo, hi)
    requires CpuScaledIn(m, h, c, lo, hi)
    ensures |Append(h, a).curr0| == |Next(m, a).cpus| && CpuScaledIn(Next(m, a), Append(h, a), c, lo, hi)
  {
    hide RavgRq, RavgTask, Touch, CpuScaled, CpuClock, CpuTally, Tallied, Rising;
    NextKeepsInv(m, h, a);
    var rq := Next(m, a).cpus[c];
    assert CpuOk(m, c) && CpuOk(Next(m, a), c);
    if !a.Request? && a.cpu == c {
      ActedCpuScaled(m, h, a, lo, hi);
    } else {
      CpuTallyAppend(h, a, c);
      TallyStays(rq, CpuClock(h, c), CpuTally(h, c), CpuTally(Append(h, a), c), if a.Request? then 0 else a.time, lo, hi);
    }
    ClockStays(rq, h, a, c, CpuTally(Append(h, a), c), lo, hi);
  }

  lemma TallyStays(rq: Rq, F: Clock, U: Tally, U': Tally, time: int, lo: int, hi: int)
    requires CpuScaled(rq, F, U, lo, hi) && Tallied(U, U', time, false)
    ensures CpuScaled(rq, F, U', lo, hi)
  {
    hide Within;
  }

  lemma ClockStays(rq: Rq, h: History, a: Action, c: nat, U: Tally, lo: int, hi: int)
    requires c < |h.curr0| && CpuScaled(rq, CpuClock(h, c), U, lo, hi) && 0 <= rq.prevWindowSize
    requires a.Request? || Upto(rq) <= a.time
    ensures CpuScaled(rq, CpuClock(Append(h, a), c), U, lo, hi)
  {
    hide CpuClock, Within;
    PastIsFixed(h, a, Upto(rq));
    PastIsFixed(h, a, rq.windowStart);
    PastIsFixed(h, a, rq.windowStart - rq.prevWindowSize);
  }

  lemma {:induction false} RunCpuScaled(m0: Machine, s0: int, log: seq<Action>, c: nat, lo: int, hi: int)
    requires Seeded(m0, s0) && ValidRun(m0, log) && AdoptionsFit(m0, log)
    requires c < |m0.curr| && 0 <= lo && SpeedsOn(log, c, lo, hi)
    ensures |After(m0, log).cpus| == |m0.curr| && CpuScaledIn(After(m0, log), HistoryOf(m0, s0, log), c, lo, hi)
  {
    hide CpuScaledIn, Next;
    RunKeepsInv(m0, s0, log);
    if log == [] {
      SeededScaled(m0, s0, c, lo, hi);
    } else {
      var front, a := log[..|log| - 1], log[|log| - 1];
      RunCpuScaled(m0, s0, front, c, lo, hi);
      RunKeepsInv(m0, s0, front);
      assert log == front + [a];
      NextKeepsCpuScaled(After(m0, front), HistoryOf(m0, s0, front), a, c, lo, hi);
    }
  }

  lemma SeededScaled(m: Machine, s0: int, c: nat, lo: int, hi: int)
    requires Seeded(m, s0) && c < |m.curr|
    ensures CpuScaledIn(m, HistoryOf(m, s0, []), c, lo, hi)
  {
  }

  /** CPU accounting at any speeds: after any run whose updates of a CPU all see a scale between lo and hi, its
      current counter stands for the CPU's non-idle run time in its current window, at no more than hi and no
      less than lo out of 1024, less at most 1023/1024 of a unit for each update in the window; and so does the
      previous counter for the window before, with one update more for the one that left it. */
  lemma CpuLoadAtSpeed(m0: Machine, s0: int, log: seq<Action>, c: nat, lo: int, hi: int)
    requires Seeded(m0, s0) && ValidRun(m0, log) && AdoptionsFit(m0, log)
    requires c < |m0.curr| && 0 <= lo && SpeedsOn(log, c, lo, hi)
    ensures |After(m0, log).cpus| == |m0.curr|
    ensures var rq, h := After(m0, log).cpus[c], HistoryOf(m0, s0, log);
            var busy, n := BusyTime(h, c, rq.windowStart, Upto(rq)), UpdatesIn(h, c, rq.windowStart, Upto(rq));
            1024 * rq.currSum <= hi * busy && lo * busy <= 1024 * rq.currSum + 1023 * n
    ensures var rq, h := After(m0, log).cpus[c], HistoryOf(m0, s0, log);
            var since := rq.windowStart - rq.prevWindowSize;
            var busy, n := BusyTime(h, c, since, rq.windowStart), UpdatesIn(h, c, since, rq.windowStart) + 1;
            1024 * rq.prevSum <= hi * busy && lo * busy <= 1024 * rq.prevSum + 1023 * n
  {
    hide BusyTime, UpdatesIn, CpuScaledIn, After, ValidRun, Inv, AdoptionsFit, Seeded, SpeedsOn;
    RunCpuScaled(m0, s0, log, c, lo, hi);
    RunKeepsInv(m0, s0, log);
    ScaledParts(After(m0, log), HistoryOf(m0, s0, log), c, lo, hi);
  }

  lemma ScaledParts(m: Machine, h: History, c: nat, lo: int, hi: int)
    requires Inv(m, h) && |h.curr0| == |m.cpus| && c < |m.cpus| && CpuScaledIn(m, h, c, lo, hi)
    ensures var rq := m.cpus[c];
            Within(rq.currSum, BusyTime(h, c, rq.windowStart, Upto(rq)), UpdatesIn(h, c, rq.windowStart, Upto(rq)), lo, hi)
    ensures var rq := m.cpus[c];
            var since := rq.windowStart - rq.prevWindowSize;
            Within(rq.prevSum, BusyTime(h, c, since, rq.windowStart), UpdatesIn(h, c, since, rq.windowStart) + 1, lo, hi)
  {
    assert CpuOk(m, c);
    hide Within, Inv, BusyAt, Count, UpdatesUpTo, UpdatesIn;
    var rq := m.cpus[c];
    SpanCounts(h, c, rq.windowStart, Upto(rq));
    SpanCounts(h, c, rq.windowStart - rq.prevWindowSize, rq.windowStart);
  }

  lemma SpanCounts(h: History, c: nat, a: int, b: int)
    requires c < |h.curr0| && a <= b && h.s0 <= b
    ensures CpuClock(h, c)(b) - CpuClock(h, c)(a) == BusyTime(h, c, a, b)
    ensures CpuTally(h, c)(b) - CpuTally(h, c)(a) == UpdatesIn(h, c, a, b)
  {
    hide BusyAt, Count, UpdatesUpTo, UpdatesIn;
    CountFrom(BusyAt(h, c), h.s0, a, b);
    UpdatesSplit(h, c, a, b);
  }

  // ----- one task, one event -----

  // vs are run times of the first windows of the grid, each cut down to whole units at most once an update and
  // once more for the update that left the window.
  predicate WindowsScaled(vs: seq<int>, F: Clock, U: Tally, s0: int, window: int, lo: int, hi: int) {
    forall j :: 0 <= j < |vs| ==> WindowScaled(vs[j], j, F, U, s0, window, lo, hi)
  }

  predicate WindowScaled(v: int, j: nat, F: Clock, U: Tally, s0: int, window: int, lo: int, hi: int) {
    Within(v, F(Boundary(s0, window, j + 1)) - F(Boundary(s0, window, j)),
           U(Boundary(s0, window, j + 1)) - U(Boundary(s0, window, j)) + 1, lo, hi)
  }

  function RecentOf(vs: seq<int>): seq<int> { LastN(Zeros() + NonZero(vs), HIST_SIZE) }

  predicate TaskScaled(t: Task, F: Clock, U: Tally, vs: seq<int>, s0: int, window: int, lo: int, hi: int)
    requires window > 0
  {
    if t.markStart == 0 then
      t.samples == Zeros() && t.sum == 0 && vs == []
    else
      && s0 <= t.markStart && |vs| == Index(s0, window, t.markStart)
      && Within(t.sum, F(t.markStart) - F(Grid(s0, window, t.markStart)),
                U(t.markStart) - U(Grid(s0, window, t.markStart)), lo, hi)
      && t.samples == RecentOf(vs) && WindowsScaled(vs, F, U, s0, window, lo, hi)
  }

  lemma WindowsTallied(vs: seq<int>, F: Clock, U: Tally, U': Tally, s0: int, window: int, time: int, count: bool,
                       lo: int, hi: int)
    requires window > 0 && WindowsScaled(vs, F, U, s0, window, lo, hi) && Boundary(s0, window, |vs|) <= time
    requires Rising(U) && Tallied(U, U', time, count)
    ensures WindowsScaled(vs, F, U', s0, window, lo, hi)
  {
    hide WindowScaled;
    forall j | 0 <= j < |vs|
      ensures WindowScaled(vs[j], j, F, U', s0, window, lo, hi)
    {
      BoundaryOrder(s0, window, j, |vs|);
      WindowTallied(vs[j], j, F, U, U', s0, window, time, count, lo, hi);
    }
  }

  lemma WindowTallied(v: int, j: nat, F: Clock, U: Tally, U': Tally, s0: int, window: int, time: int, count: bool,
                      lo: int, hi: int)
    requires window > 0 && WindowScaled(v, j, F, U, s0, window, lo, hi) && Boundary(s0, window, j) < time
    requires Rising(U) && Tallied(U, U', time, count)
    ensures WindowScaled(v, j, F, U', s0, window, lo, hi)
  {
    hide Within;
    var a, b := Boundary(s0, window, j), Boundary(s0, window, j + 1);
    assert U'(a) == U(a) && U(b) <= U'(b);
    WithinMore(v, F(b) - F(a), U(b) - U(a) + 1, U'(b) - U'(a) + 1, lo, hi);
  }

  lemma WindowsAppend(vs: seq<int>, v: int, F: Clock, U: Tally, s0: int, window: int, lo: int, hi: int)
    requires WindowsScaled(vs, F, U, s0, window, lo, hi) && WindowScaled(v, |vs|, F, U, s0, window, lo, hi)
    ensures WindowsScaled(vs + [v], F, U, s0, window, lo, hi)
  {
    hide WindowScaled;
  }

  /** A window in which the clock advances uniformly. */
  lemma UniformScaled(v: int, j: nat, F: Clock, U: Tally, s0: int, window: int, running: bool, lo: int, hi: int)
    requires window > 0 && Rising(U)
    requires Advances(F, Boundary(s0, window, j), Boundary(s0, window, j + 1), running)
    requires Within(v, if running then window else 0, 1, lo, hi)
    ensures WindowScaled(v, j, F, U, s0, window, lo, hi)
  {
    hide Within;
    var a, b := Boundary(s0, window, j), Boundary(s0, window, j + 1);
    assert F(b) - F(a) == (if running then window else 0) && U(a) <= U(b);
    WithinMore(v, F(b) - F(a), 1, U(b) - U(a) + 1, lo, hi);
  }

  /** Windows in which the clock advances uniformly, each with the same value. */
  lemma {:induction false} WindowsRepeat(vs: seq<int>, v: int, n: nat, F: Clock, U: Tally, s0: int, window: int,
                                         running: bool, lo: int, hi: int)
    requires window > 0 && WindowsScaled(vs, F, U, s0, window, lo, hi) && Rising(U)
    requires Advances(F, Boundary(s0, window, |vs|), Boundary(s0, window, |vs| + n), running)
    requires Within(v, if running then window else 0, 1, lo, hi)
    ensures WindowsScaled(vs + Repeat(v, n), F, U, s0, window, lo, hi)
  {
    if n == 0 {
      assert vs + Repeat(v, n) == vs;
    } else {
      var k := |vs| + n - 1;
      BoundaryOrder(s0, window, |vs|, k);
      BoundaryOrder(s0, window, k, k + 1);
      var from, a, b := Boundary(s0, window, |vs|), Boundary(s0, window, k), Boundary(s0, window, k + 1);
      assert (vs + Repeat(v, n - 1)) + [v] == vs + Repeat(v, n);
      hide Within, WindowsScaled, WindowScaled, Rising, Advances, Boundary, Repeat;
      AdvancesWithin(F, from, from, a, b, running);
      AdvancesWithin(F, from, a, b, b, running);
      WindowsRepeat(vs, v, n - 1, F, U, s0, window, running, lo, hi);
      UniformScaled(v, k, F, U, s0, window, running, lo, hi);
      WindowsAppend(vs + Repeat(v, n - 1), v, F, U, s0, window, lo, hi);
    }
  }

  lemma PushScaled(t: Task, vs: seq<int>, runtime: int, n: nat, cfg: Config)
    requires ValidConfig(cfg) && t.samples == RecentOf(vs)
    ensures UpdateHistory(t, false, runtime, n, cfg).samples == RecentOf(vs + Repeat(runtime, n))
  {
    HistorySamples(t, runtime, n, cfg);
    RecentExtends(vs, runtime, n);
  }

  /** A task that was not running: its last window is closed, and the windows since then are empty. */
  lemma CloseScaled(t: Task, ws: int, wallclock: int, cfg: Config, F: Clock, U: Tally, U': Tally, count: bool, vs: seq<int>,
                    s0: int, lo: int, hi: int)
    returns (vs': seq<int>)
    requires ValidConfig(cfg) && 0 < s0
    requires TaskBounded(t, s0, cfg.window) && TaskScaled(t, F, U, vs, s0, cfg.window, lo, hi)
    requires OnGrid(s0, cfg.window, ws) && 0 != t.markStart < ws <= wallclock
    requires Advances(F, t.markStart, wallclock, false)
    requires Rising(U) && Rising(U') && Tallied(U, U', wallclock, count)
    ensures |vs'| == Index(s0, cfg.window, ws) && WindowsScaled(vs', F, U', s0, cfg.window, lo, hi)
    ensures UpdateHistory(t, false, t.sum, 1, cfg).samples == RecentOf(vs')
    ensures UpdateHistory(t, false, t.sum, 1, cfg).sum == 0
  {
    var window := cfg.window;
    var k, j := Index(s0, window, t.markStart), Index(s0, window, ws);
    BoundaryOrder(s0, window, j, k);
    BoundaryOrder(s0, window, k + 1, j);
    var next := Boundary(s0, window, k + 1);
    assert Repeat(t.sum, 1) == [t.sum] && |vs| == k && t.samples == RecentOf(vs);
    assert ws == Boundary(s0, window, j) && t.markStart < next <= ws && k < j;
    assert WindowsScaled(vs, F, U, s0, window, lo, hi) && Boundary(s0, window, |vs|) <= wallclock;
    LastWindowScaled(t, k, wallclock, cfg, F, U, U', count, vs, s0, lo, hi);
    WindowsTallied(vs, F, U, U', s0, window, wallclock, count, lo, hi);
    AdvancesWithin(F, t.markStart, next, ws, wallclock, false);
    hide Within, RecentOf, UpdateHistory, TaskScaled, TaskBounded, WindowsScaled, WindowScaled, Rising, Tallied, Advances,
         Boundary, Index, Repeat, OnGrid;
    assert k + 1 + (j - k - 1) == j;
    vs' := ClosedThenIdle(t, vs, k, j - k - 1, cfg, F, U', s0, lo, hi);
  }

  lemma ClosedThenIdle(t: Task, vs: seq<int>, k: nat, n: nat, cfg: Config, F: Clock, U: Tally, s0: int, lo: int, hi: int)
    returns (vs': seq<int>)
    requires ValidConfig(cfg) && |vs| == k && Rising(U)
    requires WindowsScaled(vs, F, U, s0, cfg.window, lo, hi) && WindowScaled(t.sum, k, F, U, s0, cfg.window, lo, hi)
    requires Advances(F, Boundary(s0, cfg.window, k + 1), Boundary(s0, cfg.window, k + 1 + n), false)
    requires t.samples == RecentOf(vs)
    ensures |vs'| == k + 1 + n && WindowsScaled(vs', F, U, s0, cfg.window, lo, hi)
    ensures UpdateHistory(t, false, t.sum, 1, cfg).samples == RecentOf(vs')
    ensures UpdateHistory(t, false, t.sum, 1, cfg).sum == 0
  {
    assert cfg.window > 0;
    hide *;
    var closed := PushLast(t, vs, cfg);
    WindowsAppend(vs, t.sum, F, U, s0, cfg.window, lo, hi);
    vs' := IdleWindows(closed, n, F, U, s0, cfg.window, lo, hi);
  }

  lemma IdleWindows(vs: seq<int>, n: nat, F: Clock, U: Tally, s0: int, window: int, lo: int, hi: int)
    returns (vs': seq<int>)
    requires window > 0 && WindowsScaled(vs, F, U, s0, window, lo, hi) && Rising(U)
    requires Advances(F, Boundary(s0, window, |vs|), Boundary(s0, window, |vs| + n), false)
    ensures |vs'| == |vs| + n && WindowsScaled(vs', F, U, s0, window, lo, hi) && RecentOf(vs') == RecentOf(vs)
  {
    hide RecentOf, WindowsScaled, Rising, Advances, Boundary;
    WithinZero(1, lo, hi);
    WindowsRepeat(vs, 0, n, F, U, s0, window, false, lo, hi);
    SameRecent(vs, n);
    vs' := vs + Repeat(0, n);
  }

  lemma PushLast(t: Task, vs: seq<int>, cfg: Config) returns (vs': seq<int>)
    requires ValidConfig(cfg) && t.samples == RecentOf(vs)
    ensures vs' == vs + [t.sum] && |vs'| == |vs| + 1
    ensures UpdateHistory(t, false, t.sum, 1, cfg).samples == RecentOf(vs')
    ensures UpdateHistory(t, false, t.sum, 1, cfg).sum == 0
  {
    PushScaled(t, vs, t.sum, 1, cfg);
    assert Repeat(t.sum, 1) == [t.sum];
    SumCleared(t, cfg);
    vs' := vs + [t.sum];
  }

  lemma LastWindowScaled(t: Task, k: nat, wallclock: int, cfg: Config, F: Clock, U: Tally, U': Tally, count: bool,
                         vs: seq<int>, s0: int, lo: int, hi: int)
    requires ValidConfig(cfg) && t.markStart != 0 && TaskScaled(t, F, U, vs, s0, cfg.window, lo, hi)
    requires k == Index(s0, cfg.window, t.markStart) && Boundary(s0, cfg.window, k + 1) <= wallclock
    requires Advances(F, t.markStart, wallclock, false)
    requires Rising(U) && Rising(U') && Tallied(U, U', wallclock, count)
    ensures WindowScaled(t.sum, k, F, U', s0, cfg.window, lo, hi)
  {
    hide Within, WindowsScaled, RecentOf;
    var here, next := Boundary(s0, cfg.window, k), Boundary(s0, cfg.window, k + 1);
    assert F(next) == F(t.markStart) && U'(here) == U(here) && U(t.markStart) <= U(next) <= U'(next);
    WithinMore(t.sum, F(next) - F(here), U(t.markStart) - U(here), U'(next) - U'(here) + 1, lo, hi);
  }

  lemma SumCleared(t: Task, cfg: Config)
    requires ValidConfig(cfg)
    ensures UpdateHistory(t, false, t.sum, 1, cfg).sum == 0
  {
  }

  lemma SameRecent(vs: seq<int>, n: nat)
    ensures RecentOf(vs + Repeat(0, n)) == RecentOf(vs)
  {
    NonZeroAppend(vs, Repeat(0, n));
    NonZeroRepeat(0, n);
    assert NonZero(vs) + [] == NonZero(vs);
  }

  /** A task that ran across window boundaries. */
  lemma CrossScaled(t: Task, ws: int, scale: int, wallclock: int, cfg: Config, F: Clock, U: Tally, U': Tally, vs: seq<int>,
                    s0: int, lo: int, hi: int)
    returns (vs': seq<int>)
    requires ValidConfig(cfg) && 0 < s0 && 0 <= lo <= scale <= hi && scale <= CAPACITY_SCALE
    requires TaskBounded(t, s0, cfg.window) && TaskScaled(t, F, U, vs, s0, cfg.window, lo, hi)
    requires OnGrid(s0, cfg.window, ws) && 0 != t.markStart < ws <= wallclock < ws + cfg.window
    requires Advances(F, t.markStart, wallclock, true)
    requires Rising(U) && Rising(U') && Tallied(U, U', wallclock, true)
    ensures var r := CrossWindows(t, ws, scale, false, wallclock, cfg);
            && |vs'| == Index(s0, cfg.window, ws) && WindowsScaled(vs', F, U', s0, cfg.window, lo, hi)
            && r.samples == RecentOf(vs')
            && Within(r.sum, F(wallclock) - F(ws), U'(wallclock) - U'(ws), lo, hi)
  {
    var window := cfg.window;
    hide CrossWindows, UpdateHistory, AddToTaskDemand, RecentOf, Within, Scale, WindowsScaled, WindowScaled, TaskScaled,
         Rising, Tallied;
    var k, k', n, t1, t3 := CrossPieces(t, ws, scale, wallclock, cfg, s0);
    var first := Boundary(s0, window, k');
    BoundaryOrder(s0, window, k', k' + n);
    assert ws == Boundary(s0, window, k' + n) && t.markStart <= first <= ws;
    var vs1 := FirstWindowScaled(t, t1, k, k', scale, wallclock, cfg, F, U, U', vs, s0, lo, hi);
    OneMore(U, U', ws, wallclock);
    RestScaled(first, ws, wallclock, t.markStart, scale, F, U', lo, hi);
    hide Advances, Boundary, Index, OnGrid, TaskBounded, Repeat;
    WithinPiece(window, scale, lo, hi);
    WindowsRepeat(vs1, Scale(window, scale), n, F, U', s0, window, true, lo, hi);
    PushScaled(UpdateHistory(t1, false, t1.sum, 1, cfg), vs1, Scale(window, scale), n, cfg);
    vs' := vs1 + Repeat(Scale(window, scale), n);
  }

  lemma OneMore(U: Tally, U': Tally, ws: int, wallclock: int)
    requires Rising(U) && Tallied(U, U', wallclock, true) && ws <= wallclock
    ensures ws < wallclock ==> U'(ws) + 1 <= U'(wallclock)
  {
    assert U(ws) <= U(wallclock);
  }

  lemma RestScaled(first: int, ws: int, wallclock: int, mark: int, scale: int, F: Clock, U: Tally, lo: int, hi: int)
    requires 0 <= lo <= scale <= hi && mark <= first <= ws <= wallclock && mark < wallclock
    requires Advances(F, mark, wallclock, true) && Rising(U)
    requires ws < wallclock ==> U(ws) + 1 <= U(wallclock)
    ensures Advances(F, first, ws, true)
    ensures Within(Scale(wallclock - ws, scale), F(wallclock) - F(ws), U(wallclock) - U(ws), lo, hi)
  {
    hide Within, Scale;
    AdvancesWithin(F, mark, first, ws, wallclock, true);
    assert F(wallclock) == F(mark) + (wallclock - mark) && F(ws) == F(mark) + (ws - mark);
    assert U(ws) <= U(wallclock);
    FreshPiece(wallclock - ws, U(wallclock) - U(ws), scale, lo, hi);
  }

  lemma FirstWindowScaled(t: Task, t1: Task, k: nat, k': nat, scale: int, wallclock: int, cfg: Config, F: Clock, U: Tally,
                          U': Tally, vs: seq<int>, s0: int, lo: int, hi: int)
    returns (vs1: seq<int>)
    requires ValidConfig(cfg) && 0 <= lo <= scale <= hi
    requires TaskBounded(t, s0, cfg.window) && TaskScaled(t, F, U, vs, s0, cfg.window, lo, hi) && t.markStart != 0
    requires k == Index(s0, cfg.window, t.markStart) && t.markStart <= Boundary(s0, cfg.window, k') <= wallclock
    requires if t.markStart == Boundary(s0, cfg.window, k) then k' == k else k' == k + 1
    requires t1 == t.(sum := t.sum + Scale(Boundary(s0, cfg.window, k') - t.markStart, scale))
    requires Advances(F, t.markStart, wallclock, true) && t.markStart < wallclock
    requires Rising(U) && Rising(U') && Tallied(U, U', wallclock, true)
    ensures |vs1| == k' && WindowsScaled(vs1, F, U', s0, cfg.window, lo, hi)
    ensures UpdateHistory(t1, false, t1.sum, 1, cfg).samples == RecentOf(vs1)
  {
    var window := cfg.window;
    var here, next := Boundary(s0, window, k), Boundary(s0, window, k');
    WindowsTallied(vs, F, U, U', s0, window, wallclock, true, lo, hi);
    if k' == k {
      ScaleZero(scale);
      assert t1 == t && t.sum == 0;
      PushNone(t, cfg);
      vs1 := vs;
    } else {
      PushScaled(t1, vs, t1.sum, 1, cfg);
      assert Repeat(t1.sum, 1) == [t1.sum];
      hide Within, Scale, UpdateHistory, RecentOf;
      assert U'(here) == U(here) && U(t.markStart) <= U(next) <= U'(next);
      assert F(next) == F(t.markStart) + (next - t.markStart);
      hide WindowsScaled;
      PieceAdded(t.sum, F(t.markStart) - F(here), U(t.markStart) - U(here), next - t.markStart,
                 U'(next) - U'(here) + 1, scale, lo, hi);
      WindowsAppend(vs, t1.sum, F, U', s0, window, lo, hi);
      vs1 := vs + [t1.sum];
    }
  }

  /** One event of a task that has been seen, at a later time. */
  lemma DemandStepScaled(t: Task, ws: int, scale: int, ev: Event, isCurr: bool, wallclock: int, cfg: Config, F: Clock,
                         U: Tally, U': Tally, count: bool, vs: seq<int>, s0: int, lo: int, hi: int)
    returns (vs': seq<int>)
    requires ValidConfig(cfg) && 0 < s0 && 0 <= lo <= scale <= hi && scale <= CAPACITY_SCALE
    requires 0 != t.markStart < wallclock
    requires TaskBounded(t, s0, cfg.window) && TaskScaled(t, F, U, vs, s0, cfg.window, lo, hi)
    requires OnGrid(s0, cfg.window, ws) && ws <= wallclock < ws + cfg.window
    requires Advances(F, t.markStart, wallclock, BusyForDemand(false, ev, isCurr))
    requires Rising(U) && Rising(U') && Tallied(U, U', wallclock, count) && (BusyForDemand(false, ev, isCurr) ==> count)
    ensures var r := UpdateTaskDemand(t, ws, scale, false, ev, isCurr, wallclock, cfg);
            && |vs'| == Index(s0, cfg.window, ws) && WindowsScaled(vs', F, U', s0, cfg.window, lo, hi)
            && r.samples == RecentOf(vs')
            && Within(r.sum, F(wallclock) - F(ws), U'(wallclock) - U'(ws), lo, hi)
  {
    hide CrossWindows, UpdateHistory, AddToTaskDemand, RecentOf, Within, Scale;
    if ws <= t.markStart {
      GridUnique(s0, cfg.window, ws, t.markStart);
      vs' := vs;
      WindowsTallied(vs, F, U, U', s0, cfg.window, wallclock, count, lo, hi);
      assert U'(ws) == U(ws) && U(t.markStart) <= U(wallclock) <= U'(wallclock);
      assert F(wallclock) == F(t.markStart) + (if BusyForDemand(false, ev, isCurr) then wallclock - t.markStart else 0);
      if BusyForDemand(false, ev, isCurr) {
        AddNoClamp(t, wallclock - t.markStart, scale, cfg.window);
        PieceAdded(t.sum, F(t.markStart) - F(ws), U(t.markStart) - U(ws), wallclock - t.markStart,
                   U'(wallclock) - U'(ws), scale, lo, hi);
      } else {
        WithinMore(t.sum, F(wallclock) - F(ws), U(t.markStart) - U(ws), U'(wallclock) - U'(ws), lo, hi);
      }
    } else if !BusyForDemand(false, ev, isCurr) {
      vs' := CloseScaled(t, ws, wallclock, cfg, F, U, U', count, vs, s0, lo, hi);
      assert F(wallclock) == F(t.markStart) && F(ws) == F(t.markStart) && U'(ws) <= U'(wallclock);
      WithinZero(U'(wallclock) - U'(ws), lo, hi);
    } else {
      vs' := CrossScaled(t, ws, scale, wallclock, cfg, F, U, U', vs, s0, lo, hi);
    }
  }

  /** One event of a task keeps its ring and running sum within what the clock and the tally say. */
  lemma TaskStepScaled(rq: Rq, t: Task, ev: Event, isCurr: bool, wallclock: int, s: Speed, cfg: Config, F: Clock,
                       U: Tally, U': Tally, count: bool, vs: seq<int>, s0: int, lo: int, hi: int)
    returns (vs': seq<int>)
    requires ValidConfig(cfg) && 0 < s0 <= wallclock && 0 <= lo <= ExecScale(s) <= hi && ScaleOk(s)
    requires CpuWindowed(rq, cfg.window) && OnGrid(s0, cfg.window, rq.windowStart) && Upto(rq) <= wallclock
    requires TaskBounded(t, s0, cfg.window) && TaskScaled(t, F, U, vs, s0, cfg.window, lo, hi) && t.markStart <= wallclock
    requires if t.markStart == 0 then Advances(F, s0, wallclock, false)
             else Advances(F, t.markStart, wallclock, BusyForDemand(false, ev, isCurr))
    requires Rising(U) && Rising(U') && Tallied(U, U', wallclock, count) && (BusyForDemand(false, ev, isCurr) ==> count)
    ensures TaskScaled(RavgTask(rq, t, false, ev, isCurr, wallclock, s, cfg), F, U', vs', s0, cfg.window, lo, hi)
  {
    hide UpdateTaskDemand, RecentOf, Within, ExecScale, WindowsScaled, Rising, Tallied;
    var window := cfg.window;
    if t.markStart == wallclock {
      vs' := vs;
      StillScaled(t, F, U, U', count, vs, s0, window, lo, hi);
    } else {
      var ws := UpdateWindowStart(rq, wallclock, window).windowStart;
      EnteredWindow(rq, wallclock, window, s0);
      hide UpdateWindowStart, Advances, Index, OnGrid, Boundary;
      if t.markStart == 0 {
        vs' := FirstSightScaled(t, ws, wallclock, cfg, F, U', s0, lo, hi);
      } else {
        vs' := DemandStepScaled(t, ws, ExecScale(s), ev, isCurr, wallclock, cfg, F, U, U', count, vs, s0, lo, hi);
      }
    }
  }

  lemma EnteredWindow(rq: Rq, wallclock: int, window: int, s0: int)
    requires window > 0 && rq.latestClock <= wallclock && rq.windowStart <= wallclock
    requires OnGrid(s0, window, rq.windowStart)
    ensures var ws := UpdateWindowStart(rq, wallclock, window).windowStart;
            && OnGrid(s0, window, ws) && ws <= wallclock < ws + window
            && s0 <= wallclock && Index(s0, window, ws) == Index(s0, window, wallclock) && ws == Grid(s0, window, wallclock)
  {
    var n := WindowStartAdvance(rq, wallclock, window);
    GridStep(s0, window, rq.windowStart, n);
    GridUnique(s0, window, UpdateWindowStart(rq, wallclock, window).windowStart, wallclock);
  }

  lemma StillScaled(t: Task, F: Clock, U: Tally, U': Tally, count: bool, vs: seq<int>, s0: int, window: int, lo: int, hi: int)
    requires window > 0 && t.markStart != 0 && TaskScaled(t, F, U, vs, s0, window, lo, hi)
    requires Rising(U) && Tallied(U, U', t.markStart, count)
    ensures TaskScaled(t, F, U', vs, s0, window, lo, hi)
  {
    hide Within, RecentOf;
    var g := Grid(s0, window, t.markStart);
    WindowsTallied(vs, F, U, U', s0, window, t.markStart, count, lo, hi);
    WithinMore(t.sum, F(t.markStart) - F(g), U(t.markStart) - U(g), U'(t.markStart) - U'(g), lo, hi);
  }

  lemma FirstSightScaled(t: Task, ws: int, wallclock: int, cfg: Config, F: Clock, U: Tally, s0: int, lo: int, hi: int)
    returns (vs: seq<int>)
    requires ValidConfig(cfg) && OnGrid(s0, cfg.window, ws) && ws <= wallclock && Rising(U)
    requires Advances(F, s0, wallclock, false) && t.samples == Zeros() && t.sum == 0
    ensures |vs| == Index(s0, cfg.window, ws) && WindowsScaled(vs, F, U, s0, cfg.window, lo, hi)
    ensures t.samples == RecentOf(vs) && Within(t.sum, F(wallclock) - F(ws), U(wallclock) - U(ws), lo, hi)
  {
    var j := Index(s0, cfg.window, ws);
    AdvancesWithin(F, s0, s0, ws, wallclock, false);
    WithinZero(1, lo, hi);
    hide Within;
    WindowsRepeat([], 0, j, F, U, s0, cfg.window, false, lo, hi);
    vs := [] + Repeat(0, j);
    SameRecent([], j);
    assert Zeros() + NonZero([]) == Zeros();
    assert F(wallclock) == F(s0) == F(ws) && U(ws) <= U(wallclock);
    WithinZero(U(wallclock) - U(ws), lo, hi);
  }

  // ----- tasks on runs -----

  lemma TouchTaskScaled(m: Machine, c: nat, p: nat, ev: Event, time: int, s: Speed, F: Clock, U: Tally, U': Tally,
                        count: bool, vs: seq<int>, s0: int, lo: int, hi: int)
    returns (vs': seq<int>)
    requires WellFormed(m) && c < |m.cpus| && p < |m.tasks| && p !in m.idle
    requires 0 <= lo <= ExecScale(s) <= hi && ScaleOk(s) && 0 < s0 <= time
    requires CpuWindowed(m.cpus[c], m.cfg.window) && Upto(m.cpus[c]) <= time && m.tasks[p].markStart <= time
    requires TasksBounded(m, s0) && TaskScaled(m.tasks[p], F, U, vs, s0, m.cfg.window, lo, hi)
    requires if m.tasks[p].markStart == 0 then Advances(F, s0, time, false)
             else Advances(F, m.tasks[p].markStart, time, BusyForDemand(false, ev, p == m.curr[c]))
    requires Rising(U) && Rising(U') && Tallied(U, U', time, count)
    requires BusyForDemand(false, ev, p == m.curr[c]) ==> count
    ensures TaskScaled(Touch(m, c, p, ev, time, s).tasks[p], F, U', vs', s0, m.cfg.window, lo, hi)
  {
    hide TaskScaled, RavgTask, RavgRq, Rising, Tallied, Advances, ExecScale;
    assert CpuOnGrid(m.cpus[c], s0, m.cfg.window);
    vs' := TaskStepScaled(m.cpus[c], m.tasks[p], ev, p == m.curr[c], time, s, m.cfg, F, U, U', count, vs, s0, lo, hi);
  }

  /** Every task, against the clock of the log before and the tally of the log after the action. */
  lemma ActedTaskScaled(m: Machine, h: History, a: Action, p: nat, vs: seq<int>, lo: int, hi: int)
    returns (vs': seq<int>)
    requires Inv(m, h) && m.newWindow == m.cfg.window && Enabled(m, a) && !a.Request?
    requires 0 <= lo && SpeedsWithin(a, lo, hi) && Speeds(a, 1) && TasksBounded(m, h.s0)
    requires p < |m.tasks| && p !in m.idle
    requires TaskScaled(m.tasks[p], TaskClock(h, p), TaskTally(h, p), vs, h.s0, m.cfg.window, lo, hi)
    ensures p < |Next(m, a).tasks|
    ensures TaskScaled(Next(m, a).tasks[p], TaskClock(h, p), TaskTally(Append(h, a), p), vs', h.s0, m.cfg.window, lo, hi)
  {
    hide RavgRq, RavgTask, TaskScaled, TaskClock, TaskTally, Rising, Tallied, Advances;
    var c := a.cpu;
    var F, U, U' := TaskClock(h, p), TaskTally(h, p), TaskTally(Append(h, a), p);
    assert CpuOk(m, c) && m.curr[c] == CurrAfter(h, c);
    assert TaskBounded(m.tasks[p], h.s0, m.cfg.window);
    TalliesRise(h, p);
    TalliesRise(Append(h, a), p);
    TaskTallyAppend(h, a, p);
    if a.Switch? && a.next != m.curr[c] {
      vs' := SwitchedTaskScaled(m, h, a, p, U', vs, lo, hi);
    } else if p == m.curr[c] {
      TaskClockAdvances(m, h, p, a.time, true);
      vs' := TouchTaskScaled(m, c, p, TaskUpdate, a.time, FirstSpeed(a), F, U, U', true, vs, h.s0, lo, hi);
    } else {
      vs' := vs;
      TaskTallyStays(m.tasks[p], F, U, U', a.time, vs, h.s0, m.cfg.window, lo, hi);
    }
  }

  lemma SwitchedTaskScaled(m: Machine, h: History, a: Action, p: nat, U': Tally, vs: seq<int>, lo: int, hi: int)
    returns (vs': seq<int>)
    requires Inv(m, h) && Enabled(m, a) && a.Switch? && a.next != m.curr[a.cpu]
    requires 0 <= lo && SpeedsWithin(a, lo, hi) && Speeds(a, 1) && TasksBounded(m, h.s0)
    requires p < |m.tasks| && p !in m.idle
    requires TaskScaled(m.tasks[p], TaskClock(h, p), TaskTally(h, p), vs, h.s0, m.cfg.window, lo, hi)
    requires Rising(TaskTally(h, p)) && Rising(U') && Tallied(TaskTally(h, p), U', a.time, p == m.curr[a.cpu])
    ensures p < |Next(m, a).tasks|
    ensures TaskScaled(Next(m, a).tasks[p], TaskClock(h, p), U', vs', h.s0, m.cfg.window, lo, hi)
  {
    hide RavgRq, RavgTask, TaskScaled, TaskClock, TaskTally, Rising, Tallied, Advances;
    var c, prev := a.cpu, m.curr[a.cpu];
    var F, U := TaskClock(h, p), TaskTally(h, p);
    assert CpuOk(m, c);
    assert TaskBounded(m.tasks[p], h.s0, m.cfg.window);
    TouchFacts(m, c, prev, PutPrevTask, a.time, a.putSpeed);
    var m1 := Touch(m, c, prev, PutPrevTask, a.time, a.putSpeed);
    TouchFacts(m1, c, a.next, PickNextTask, a.time, a.pickSpeed);
    if p == prev {
      TaskClockAdvances(m, h, p, a.time, true);
      vs' := TouchTaskScaled(m, c, p, PutPrevTask, a.time, a.putSpeed, F, U, U', true, vs, h.s0, lo, hi);
    } else if p == a.next {
      TaskClockAdvances(m, h, p, a.time, false);
      TouchTasksBounded(m, c, prev, PutPrevTask, a.time, a.putSpeed, h.s0);
      vs' := TouchTaskScaled(m1, c, p, PickNextTask, a.time, a.pickSpeed, F, U, U', false, vs, h.s0, lo, hi);
    } else {
      vs' := vs;
      TaskTallyStays(m.tasks[p], F, U, U', a.time, vs, h.s0, m.cfg.window, lo, hi);
    }
  }

  lemma TaskTallyStays(t: Task, F: Clock, U: Tally, U': Tally, time: int, vs: seq<int>, s0: int, window: int, lo: int, hi: int)
    requires window > 0 && TaskScaled(t, F, U, vs, s0, window, lo, hi) && Tallied(U, U', time, false)
    ensures TaskScaled(t, F, U', vs, s0, window, lo, hi)
  {
    hide Within;
  }

  lemma TaskClockStays(t: Task, F: Clock, G: Clock, U: Tally, vs: seq<int>, s0: int, window: int, upto: int, lo: int, hi: int)
    requires window > 0 && TaskScaled(t, F, U, vs, s0, window, lo, hi) && t.markStart <= upto
    requires forall x {:trigger F(x)} {:trigger G(x)} :: x <= upto ==> F(x) == G(x)
    ensures TaskScaled(t, G, U, vs, s0, window, lo, hi)
  {
    hide Within, RecentOf;
    if t.markStart != 0 {
      forall j | 0 <= j < |vs|
        ensures WindowScaled(vs[j], j, G, U, s0, window, lo, hi)
      {
        BoundaryOrder(s0, window, j + 1, |vs|);
        BoundaryOrder(s0, window, j, j + 1);
        assert WindowScaled(vs[j], j, F, U, s0, window, lo, hi);
      }
    }
  }

  lemma NextKeepsTaskScaled(m: Machine, h: History, a: Action, p: nat, vs: seq<int>, lo: int, hi: int)
    returns (vs': seq<int>)
    requires Inv(m, h) && m.newWindow == m.cfg.window && Enabled(m, a) && 0 <= lo && Speeds(a, 1)
    requires if a.Request? then a.window == m.cfg.window else SpeedsWithin(a, lo, hi)
    requires TasksBounded(m, h.s0) && p < |m.tasks| && p !in m.idle
    requires TaskScaled(m.tasks[p], TaskClock(h, p), TaskTally(h, p), vs, h.s0, m.cfg.window, lo, hi)
    ensures p < |Next(m, a).tasks| && Next(m, a).cfg == m.cfg
    ensures TaskScaled(Next(m, a).tasks[p], TaskClock(Append(h, a), p), TaskTally(Append(h, a), p), vs', h.s0,
                       m.cfg.window, lo, hi)
  {
    hide RavgRq, RavgTask, Touch, TaskScaled, Next, TaskTally, Tallied;
    NextKeepsConfig(m, a);
    NextKeepsInv(m, h, a);
    var m', h' := Next(m, a), Append(h, a);
    if a.Request? {
      vs' := vs;
      TaskTallyAppend(h, a, p);
      TaskTallyStays(m.tasks[p], TaskClock(h, p), TaskTally(h, p), TaskTally(h', p), 0, vs, h.s0, m.cfg.window, lo, hi);
    } else {
      vs' := ActedTaskScaled(m, h, a, p, vs, lo, hi);
    }
    forall x | x <= m'.now
      ensures TaskClock(h, p)(x) == TaskClock(h', p)(x)
    {
      PastIsFixed(h, a, x);
    }
    TaskClockStays(m'.tasks[p], TaskClock(h, p), TaskClock(h', p), TaskTally(h', p), vs', h.s0, m.cfg.window, m'.now, lo, hi);
  }

  // Every update sees a speed between lo and hi.
  predicate AllSpeedsWithin(log: seq<Action>, lo: int, hi: int) {
    forall i :: 0 <= i < |log| && !log[i].Request? ==> SpeedsWithin(log[i], lo, hi)
  }

  lemma {:induction false} RunTaskScaled(m0: Machine, s0: int, log: seq<Action>, p: nat, lo: int, hi: int)
    returns (vs: seq<int>)
    requires Seeded(m0, s0) && ValidRun(m0, log) && Steady(m0.cfg.window, log)
    requires AllSpeeds(log, 1) && 0 <= lo && AllSpeedsWithin(log, lo, hi) && p < |m0.tasks| && p !in m0.idle
    ensures |After(m0, log).tasks| == |m0.tasks|
    ensures TaskScaled(After(m0, log).tasks[p], TaskClock(HistoryOf(m0, s0, log), p), TaskTally(HistoryOf(m0, s0, log), p),
                       vs, s0, m0.cfg.window, lo, hi)
  {
    hide TaskScaled, TasksBounded, Next;
    SteadyKeepsInv(m0, s0, log);
    if log == [] {
      vs := [];
      SeededTaskScaled(m0, s0, p, lo, hi);
    } else {
      var front, a := log[..|log| - 1], log[|log| - 1];
      vs := RunTaskScaled(m0, s0, front, p, lo, hi);
      SteadyKeepsInv(m0, s0, front);
      RunTasksBounded(m0, s0, front);
      assert log == front + [a];
      vs := NextKeepsTaskScaled(After(m0, front), HistoryOf(m0, s0, front), a, p, vs, lo, hi);
    }
  }

  lemma SeededTaskScaled(m: Machine, s0: int, p: nat, lo: int, hi: int)
    requires Seeded(m, s0) && p < |m.tasks|
    ensures TaskScaled(m.tasks[p], TaskClock(HistoryOf(m, s0, []), p), TaskTally(HistoryOf(m, s0, []), p), [], s0,
                       m.cfg.window, lo, hi)
  {
  }

  /** Task accounting at any speeds: after any fixed-window run whose updates all see a scale between lo and hi, the
      ring is the last five non-zero entries of a list with one value for each window since the start, the running
      sum is the value of the current window, and each value stands for the task's run time in its window, at no
      more than hi and no less than lo out of 1024, less at most 1023/1024 of a unit for each update of the running
      task in the window and, once the window is over, for the one that left it. */
  lemma TaskHistoryAtSpeed(m0: Machine, s0: int, log: seq<Action>, p: nat, lo: int, hi: int) returns (vs: seq<int>)
    requires Seeded(m0, s0) && ValidRun(m0, log) && Steady(m0.cfg.window, log)
    requires AllSpeeds(log, 1) && 0 <= lo && AllSpeedsWithin(log, lo, hi) && p < |m0.tasks| && p !in m0.idle
    ensures |After(m0, log).tasks| == |m0.tasks|
    ensures var t, h, window := After(m0, log).tasks[p], HistoryOf(m0, s0, log), m0.cfg.window;
            if t.markStart == 0 then
              t.samples == Zeros() && t.sum == 0
            else
              && s0 <= t.markStart && |vs| == Index(s0, window, t.markStart)
              && t.samples == LastN(Zeros() + NonZero(vs), 5)
              && (var ws := Grid(s0, window, t.markStart);
                  var ran, n := TaskTime(h, p, ws, t.markStart), TaskUpdatesIn(h, p, ws, t.markStart);
                  1024 * t.sum <= hi * ran && lo * ran <= 1024 * t.sum + 1023 * n)
              && forall j {:trigger vs[j]} :: 0 <= j < |vs| ==>
                   var a, b := Boundary(s0, window, j), Boundary(s0, window, j + 1);
                   var ran, n := TaskTime(h, p, a, b), TaskUpdatesIn(h, p, a, b) + 1;
                   1024 * vs[j] <= hi * ran && lo * ran <= 1024 * vs[j] + 1023 * n
  {
    hide After, ValidRun, TaskScaled, Seeded, AllSpeeds, AllSpeedsWithin, Steady;
    vs := RunTaskScaled(m0, s0, log, p, lo, hi);
    assert m0.cfg.window > 0 && 0 < s0 by { SeededWindow(m0, s0); }
    TaskParts(After(m0, log).tasks[p], HistoryOf(m0, s0, log), p, vs, m0.cfg.window, lo, hi);
  }

  lemma SeededWindow(m: Machine, s0: int)
    requires Seeded(m, s0)
    ensures m.cfg.window > 0 && 0 < s0
  {
  }

  lemma TaskSpanCounts(h: History, p: nat, a: int, b: int)
    requires a <= b && h.s0 <= b
    ensures TaskClock(h, p)(b) - TaskClock(h, p)(a) == TaskTime(h, p, a, b)
    ensures TaskTally(h, p)(b) - TaskTally(h, p)(a) == TaskUpdatesIn(h, p, a, b)
  {
    hide RunsAt, Count, TaskUpdatesUpTo, TaskUpdatesIn;
    CountFrom(RunsAt(h, p), h.s0, a, b);
    TaskUpdatesSplit(h, p, a, b);
  }

  lemma TaskParts(t: Task, h: History, p: nat, vs: seq<int>, window: int, lo: int, hi: int)
    requires window > 0 && TaskScaled(t, TaskClock(h, p), TaskTally(h, p), vs, h.s0, window, lo, hi)
    ensures if t.markStart == 0 then
              t.samples == Zeros() && t.sum == 0
            else
              && h.s0 <= t.markStart && |vs| == Index(h.s0, window, t.markStart)
              && t.samples == LastN(Zeros() + NonZero(vs), 5)
              && (var ws := Grid(h.s0, window, t.markStart);
                  Within(t.sum, TaskTime(h, p, ws, t.markStart), TaskUpdatesIn(h, p, ws, t.markStart), lo, hi))
              && forall j {:trigger vs[j]} :: 0 <= j < |vs| ==>
                   var a, b := Boundary(h.s0, window, j), Boundary(h.s0, window, j + 1);
                   Within(vs[j], TaskTime(h, p, a, b), TaskUpdatesIn(h, p, a, b) + 1, lo, hi)
  {
    hide Within, TaskTime, TaskClock, TaskTally, TaskUpdatesIn;
    if t.markStart != 0 {
      var ws := Grid(h.s0, window, t.markStart);
      BoundaryOrder(h.s0, window, 0, Index(h.s0, window, t.markStart));
      TaskSpanCounts(h, p, ws, t.markStart);
      forall j: nat | j < |vs|
        ensures var a, b := Boundary(h.s0, window, j), Boundary(h.s0, window, j + 1);
                Within(vs[j], TaskTime(h, p, a, b), TaskUpdatesIn(h, p, a, b) + 1, lo, hi)
      {
        assert WindowScaled(vs[j], j, TaskClock(h, p), TaskTally(h, p), h.s0, window, lo, hi);
        BoundaryOrder(h.s0, window, 0, j);
        TaskSpanCounts(h, p, Boundary(h.s0, window, j), Boundary(h.s0, window, j + 1));
      }
    }
  }
}
