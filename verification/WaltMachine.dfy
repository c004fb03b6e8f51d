/**
 The tracker on a whole machine: several CPUs, migrating tasks, one global clock. The hooks of
 lse_cfs.c and the rollover work of lse_util_track.c are actions; a run is a log of actions.
 What ran when is read off the log alone (Runner), never off the tracker's own state.
 */
module WaltMachine {
  import opened Arith
  import opened WaltModel
  import opened Samples

  datatype Machine = Machine(
    cfg: Config,
    newWindow: int,     // new_lse_sched_ravg_window
    idle: set<nat>,     // the idle tasks
    cpus: seq<Rq>,
    tasks: seq<Task>,
    curr: seq<nat>,     // rq->curr of each CPU
    now: int)           // time of the last action

  datatype Action =
    | Switch(cpu: nat, next: nat, time: int, putSpeed: Speed, pickSpeed: Speed) // lse_schedule
    | Tick(cpu: nat, time: int, speed: Speed)     // lse_tick_entry, and the shadow tick
    | IrqWork(cpu: nat, time: int, speed: Speed)  // lse_irq_work
    | Request(window: int)                        // sched_ravg_window_change

  // The speed at which an action accounts the task that was running.
  function FirstSpeed(a: Action): Speed
    requires !a.Request?
  {
    if a.Switch? then a.putSpeed else a.speed
  }

  predicate WellFormed(m: Machine) {
    && ValidConfig(m.cfg) && 0 <= m.newWindow < 0x1_0000_0000
    && |m.cpus| == |m.curr|
    && (forall c :: 0 <= c < |m.curr| ==> m.curr[c] < |m.tasks|)
    && (forall c, d :: 0 <= c < d < |m.curr| ==> m.curr[c] != m.curr[d])
  }

  // The clock never runs backwards, and a task runs on one CPU at a time.
  predicate Enabled(m: Machine, a: Action) {
    && WellFormed(m)
    && match a
       case Request(w) => 0 <= w < 0x1_0000_0000
       case Tick(c, time, _) => c < |m.cpus| && m.now <= time
       case IrqWork(c, time, _) => c < |m.cpus| && m.now <= time
       case Switch(c, next, time, _, _) =>
         && c < |m.cpus| && m.now <= time && next < |m.tasks|
         && forall d :: 0 <= d < |m.curr| && d != c ==> m.curr[d] != next
  }

  // lse_update_task_ravg for one task on one CPU
  function Touch(m: Machine, c: nat, p: nat, ev: Event, time: int, s: Speed): Machine
    requires WellFormed(m) && c < |m.cpus| && p < |m.tasks|
  {
    var rq, t := m.cpus[c], m.tasks[p];
    m.(cpus := m.cpus[c := RavgRq(rq, t, p in m.idle, ev, time, s, m.cfg)],
       tasks := m.tasks[p := RavgTask(rq, t, p in m.idle, ev, p == m.curr[c], time, s, m.cfg)],
       now := time)
  }

  function Next(m: Machine, a: Action): Machine
    requires Enabled(m, a)
  {
    match a
    case Request(w) => m.(newWindow := w)
    case Tick(c, time, s) => Touch(m, c, m.curr[c], TaskUpdate, time, s)
    case IrqWork(c, time, s) =>
      var m1 := Touch(m, c, m.curr[c], TaskUpdate, time, s);
      if m1.newWindow != m1.cfg.window && time < m1.cpus[c].windowStart + m1.newWindow then
        m1.(cfg := m1.cfg.(window := m1.newWindow))
      else m1
    case Switch(c, next, time, put, pick) =>
      if next == m.curr[c] then
        Touch(m, c, next, TaskUpdate, time, put)
      else
        Touch(Touch(m, c, m.curr[c], PutPrevTask, time, put), c, next, PickNextTask, time, pick)
          .(curr := m.curr[c := next])
  }

  ghost predicate ValidRun(m0: Machine, log: seq<Action>)
    decreases |log|, 0
  {
    log == [] || (ValidRun(m0, log[..|log| - 1]) && Enabled(After(m0, log[..|log| - 1]), log[|log| - 1]))
  }

  ghost function After(m0: Machine, log: seq<Action>): Machine
    requires ValidRun(m0, log)
    decreases |log|, 1
  {
    if log == [] then m0 else Next(After(m0, log[..|log| - 1]), log[|log| - 1])
  }

  // Right after the first tick has seeded every window_start with the same instant s0: no task has
  // been seen yet, and anything may be running.
  predicate Seeded(m: Machine, s0: int) {
    && WellFormed(m) && m.newWindow == m.cfg.window && 0 < s0 <= m.now
    && (forall c :: 0 <= c < |m.cpus| ==> m.cpus[c] == Rq(s0, 0, m.cfg.window, CAPACITY_SCALE, 0, 0))
    && (forall p :: 0 <= p < |m.tasks| ==> m.tasks[p] == Task(0, 0, 0, Zeros(), 0, 0))
  }

  // ----- what ran when, from the log alone -----

  datatype History = History(curr0: seq<nat>, idle: set<nat>, s0: int, log: seq<Action>)

  function Append(h: History, a: Action): History { h.(log := h.log + [a]) }

  function HistoryOf(m0: Machine, s0: int, log: seq<Action>): History {
    History(m0.curr, m0.idle, s0, log)
  }

  // The task that CPU c runs after the log.
  function CurrAfter(h: History, c: nat): nat
    requires c < |h.curr0|
    decreases |h.log|
  {
    if h.log == [] then h.curr0[c]
    else
      var a := h.log[|h.log| - 1];
      if a.Switch? && a.cpu == c then a.next else CurrAfter(h.(log := h.log[..|h.log| - 1]), c)
  }

  // The task that CPU c runs at instant x: the one left running by the last action on c up to x.
  // Nothing is known before the first action on c.
  function Runner(h: History, c: nat, x: int): Option<nat>
    requires c < |h.curr0|
    decreases |h.log|
  {
    if h.log == [] then None
    else
      var a := h.log[|h.log| - 1];
      if !a.Request? && a.cpu == c && a.time <= x then Some(CurrAfter(h, c))
      else Runner(h.(log := h.log[..|h.log| - 1]), c, x)
  }

  // CPU c runs something other than its idle task at each instant where this holds.
  ghost function BusyAt(h: History, c: nat): int -> bool
    requires c < |h.curr0|
  {
    x => var r := Runner(h, c, x); r.Some? && r.value !in h.idle
  }

  // Task p runs, on whatever CPU, at each instant where this holds.
  ghost function RunsAt(h: History, p: nat): int -> bool {
    x => exists c: nat :: c < |h.curr0| && Runner(h, c, x) == Some(p)
  }

  // The number of instants in [s0, x) at which P holds.
  ghost function Count(P: int -> bool, s0: int, x: int): int
    decreases x - s0
  {
    if x <= s0 then 0 else Count(P, s0, x - 1) + if P(x - 1) then 1 else 0
  }

  // The number of instants before x at which c was busy; differences are run times.
  ghost function CpuClock(h: History, c: nat): int -> int
    requires c < |h.curr0|
  {
    x => Count(BusyAt(h, c), h.s0, x)
  }

  ghost function TaskClock(h: History, p: nat): int -> int {
    x => Count(RunsAt(h, p), h.s0, x)
  }

  // ----- laws of the history -----

  lemma FrontOfAppend(h: History, a: Action)
    ensures Append(h, a).log[..|Append(h, a).log| - 1] == h.log
    ensures Append(h, a).(log := h.log) == h
  {
  }

  lemma CurrAppend(h: History, a: Action, c: nat)
    requires c < |h.curr0|
    ensures CurrAfter(Append(h, a), c) == if a.Switch? && a.cpu == c then a.next else CurrAfter(h, c)
  {
    FrontOfAppend(h, a);
  }

  lemma RunnerAppend(h: History, a: Action, c: nat, x: int)
    requires c < |h.curr0|
    ensures Runner(Append(h, a), c, x)
         == if !a.Request? && a.cpu == c && a.time <= x then Some(CurrAfter(Append(h, a), c)) else Runner(h, c, x)
  {
    FrontOfAppend(h, a);
  }

  lemma {:induction false} CountAgree(P: int -> bool, Q: int -> bool, s0: int, x: int)
    requires forall y {:trigger P(y)} :: s0 <= y < x ==> P(y) == Q(y)
    ensures Count(P, s0, x) == Count(Q, s0, x)
    decreases x - s0
  {
    if s0 < x {
      CountAgree(P, Q, s0, x - 1);
    }
  }

  lemma {:induction false} CountAdvances(P: int -> bool, s0: int, a: int, x: int, on: bool)
    requires s0 <= a <= x
    requires forall y {:trigger P(y)} :: a <= y < x ==> P(y) == on
    ensures Count(P, s0, x) == Count(P, s0, a) + if on then x - a else 0
    decreases x - a
  {
    if a < x {
      CountAdvances(P, s0, a, x - 1, on);
    }
  }

  /** An action does not rewrite the past. */
  lemma PastIsFixed(h: History, a: Action, x: int)
    requires a.Request? || x <= a.time
    ensures forall c: nat :: c < |h.curr0| ==> CpuClock(Append(h, a), c)(x) == CpuClock(h, c)(x)
    ensures forall p: nat :: TaskClock(Append(h, a), p)(x) == TaskClock(h, p)(x)
  {
    var h' := Append(h, a);
    forall c: nat, y: int | c < |h.curr0| && y < x
      ensures Runner(h', c, y) == Runner(h, c, y)
    {
      RunnerAppend(h, a, c, y);
    }
    forall c: nat | c < |h.curr0|
      ensures CpuClock(h', c)(x) == CpuClock(h, c)(x)
    {
      CountAgree(BusyAt(h', c), BusyAt(h, c), h.s0, x);
    }
    forall p: nat
      ensures TaskClock(h', p)(x) == TaskClock(h, p)(x)
    {
      CountAgree(RunsAt(h', p), RunsAt(h, p), h.s0, x);
    }
  }
}
