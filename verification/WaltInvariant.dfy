/**
 The structural invariant of the machine: marks, window starts and the event log agree about
 which task is running on each CPU and since when.
 */
module WaltInvariant {
  import opened Arith
  import opened WaltModel
  import opened WaltBounds
  import opened WaltMachine

  // A CPU's counters are complete up to the mark of its running task, inside the current window.
  predicate CpuOk(m: Machine, c: nat)
    requires WellFormed(m) && c < |m.cpus|
  {
    && CpuWindowed(m.cpus[c], m.cfg.window)
    && Upto(m.cpus[c]) <= m.now
    && (m.tasks[m.curr[c]].markStart != 0 ==> m.tasks[m.curr[c]].markStart == Upto(m.cpus[c]))
  }

  // From its mark on, the running task is what the log says runs on c.
  ghost predicate RunningOk(m: Machine, h: History, c: nat)
    requires WellFormed(m) && c < |m.cpus| && c < |h.curr0|
  {
    var mark := m.tasks[m.curr[c]].markStart;
    forall x {:trigger Runner(h, c, x)} ::
      if mark == 0 then Runner(h, c, x) == None
      else mark <= x ==> Runner(h, c, x) == Some(m.curr[c])
  }

  // A task ran elsewhere, or earlier, only before its mark.
  ghost predicate MarksOk(m: Machine, h: History, c: nat)
    requires WellFormed(m) && c < |m.cpus| && c < |h.curr0|
  {
    forall x {:trigger Runner(h, c, x)} ::
      var r := Runner(h, c, x);
      r.Some? ==> r.value < |m.tasks| && (r.value == m.curr[c] || x < m.tasks[r.value].markStart)
  }

  ghost predicate Inv(m: Machine, h: History) {
    && WellFormed(m)
    && |h.curr0| == |m.curr| && h.idle == m.idle && 0 < h.s0 <= m.now
    && (forall c :: 0 <= c < |m.cpus| ==> m.curr[c] == CurrAfter(h, c) && CpuOk(m, c))
    && (forall c :: 0 <= c < |m.cpus| ==> RunningOk(m, h, c) && MarksOk(m, h, c))
    && (forall p :: 0 <= p < |m.tasks| ==> 0 <= m.tasks[p].markStart <= m.now)
  }

  // lse_irq_work takes over a pending window size.
  predicate Adopts(m: Machine, a: Action)
    requires Enabled(m, a)
  {
    a.IrqWork? && Next(m, a).cfg.window != m.cfg.window
  }

  // lse_irq_work asks only whether the local CPU's clock lies inside a window of the new size; here the
  // same holds of every other CPU.
  predicate AdoptionFits(m: Machine, a: Action)
    requires Enabled(m, a)
  {
    Adopts(m, a) ==>
      forall d {:trigger m.cpus[d]} :: 0 <= d < |m.cpus| && d != a.cpu ==> CpuWindowed(m.cpus[d], m.newWindow)
  }

  lemma SeededInv(m: Machine, s0: int)
    requires Seeded(m, s0)
    ensures Inv(m, HistoryOf(m, s0, []))
  {
  }

  /** After one call of lse_update_task_ravg the CPU is complete up to the call, provided it
      already was or the task's own mark is older. */
  lemma RavgRqWindowed(rq: Rq, t: Task, idle: bool, ev: Event, time: int, s: Speed, cfg: Config)
    requires ValidConfig(cfg) && 0 < time
    requires CpuWindowed(rq, cfg.window) && Upto(rq) <= time
    requires t.markStart == time ==> Upto(rq) == time
    ensures var r := RavgRq(rq, t, idle, ev, time, s, cfg);
            CpuWindowed(r, cfg.window) && Upto(r) == time
  {
    if t.markStart != time {
      var _ := WindowStartAdvance(rq, time, cfg.window);
    }
  }

  lemma RavgTaskMark(rq: Rq, t: Task, idle: bool, ev: Event, isCurr: bool, time: int, s: Speed, cfg: Config)
    requires ValidConfig(cfg) && rq.windowStart != 0
    ensures RavgTask(rq, t, idle, ev, isCurr, time, s, cfg).markStart == time
  {
  }

  /** What one call leaves unchanged, and the marks it sets. */
  lemma TouchFacts(m: Machine, c: nat, p: nat, ev: Event, time: int, s: Speed)
    requires WellFormed(m) && c < |m.cpus| && p < |m.tasks| && 0 < m.now <= time
    requires CpuWindowed(m.cpus[c], m.cfg.window) && Upto(m.cpus[c]) <= time
    requires m.tasks[p].markStart == time ==> Upto(m.cpus[c]) == time
    ensures var r := Touch(m, c, p, ev, time, s);
            && WellFormed(r) && r.curr == m.curr && r.cfg == m.cfg && r.idle == m.idle
            && r.newWindow == m.newWindow && r.now == time
            && |r.cpus| == |m.cpus| && |r.tasks| == |m.tasks|
            && CpuWindowed(r.cpus[c], m.cfg.window) && Upto(r.cpus[c]) == time
            && r.tasks[p].markStart == time
            && (forall d :: 0 <= d < |m.cpus| && d != c ==> r.cpus[d] == m.cpus[d])
            && (forall q :: 0 <= q < |m.tasks| && q != p ==> r.tasks[q] == m.tasks[q])
  {
    RavgRqWindowed(m.cpus[c], m.tasks[p], p in m.idle, ev, time, s, m.cfg);
    RavgTaskMark(m.cpus[c], m.tasks[p], p in m.idle, ev, p == m.curr[c], time, s, m.cfg);
  }

  // m' is m after an action a on CPU c, as far as the structural invariant is concerned.
  predicate StepShape(m: Machine, m': Machine, a: Action)
    requires !a.Request?
  {
    var c := a.cpu;
    && Enabled(m, a) && WellFormed(m') && m'.idle == m.idle && m'.now == a.time
    && |m'.cpus| == |m.cpus| && |m'.tasks| == |m.tasks|
    && m'.curr == (if a.Switch? then m.curr[c := a.next] else m.curr)
    && CpuWindowed(m'.cpus[c], m'.cfg.window) && Upto(m'.cpus[c]) == a.time
    && m'.tasks[m.curr[c]].markStart == a.time && m'.tasks[m'.curr[c]].markStart == a.time
    && (forall d :: 0 <= d < |m.cpus| && d != c ==>
          m'.cpus[d] == m.cpus[d] && CpuWindowed(m'.cpus[d], m'.cfg.window))
    && (forall q :: 0 <= q < |m.tasks| && q != m.curr[c] && q != m'.curr[c] ==> m'.tasks[q] == m.tasks[q])
  }

  lemma AllWindowed(m: Machine, h: History)
    requires Inv(m, h)
    ensures forall d {:trigger m.cpus[d]} :: 0 <= d < |m.cpus| ==> CpuWindowed(m.cpus[d], m.cfg.window)
  {
    forall d | 0 <= d < |m.cpus|
      ensures CpuWindowed(m.cpus[d], m.cfg.window)
    {
      assert CpuOk(m, d);
    }
  }

  lemma UpdateShape(m: Machine, h: History, a: Action)
    requires Inv(m, h) && Enabled(m, a) && AdoptionFits(m, a) && (a.Tick? || a.IrqWork?)
    ensures StepShape(m, Next(m, a), a)
  {
    hide RavgRq, RavgTask;
    var c := a.cpu;
    assert CpuOk(m, c);
    TouchFacts(m, c, m.curr[c], TaskUpdate, a.time, a.speed);
    AllWindowed(m, h);
  }

  lemma SwitchShape(m: Machine, h: History, a: Action)
    requires Inv(m, h) && Enabled(m, a) && a.Switch?
    ensures StepShape(m, Next(m, a), a)
  {
    hide RavgRq, RavgTask;
    var c := a.cpu;
    assert CpuOk(m, c);
    AllWindowed(m, h);
    if a.next == m.curr[c] {
      TouchFacts(m, c, a.next, TaskUpdate, a.time, a.putSpeed);
      assert m.curr[c := a.next] == m.curr;
    } else {
      TouchFacts(m, c, m.curr[c], PutPrevTask, a.time, a.putSpeed);
      var m1 := Touch(m, c, m.curr[c], PutPrevTask, a.time, a.putSpeed);
      TouchFacts(m1, c, a.next, PickNextTask, a.time, a.pickSpeed);
    }
  }

  function RunnerNext(h: History, a: Action, c: nat, x: int): Option<nat>
    requires c < |h.curr0|
  {
    if !a.Request? && a.cpu == c && a.time <= x then Some(CurrAfter(Append(h, a), c)) else Runner(h, c, x)
  }

  lemma RunnersAfter(h: History, a: Action, c: nat)
    requires c < |h.curr0|
    ensures forall x {:trigger Runner(Append(h, a), c, x)} :: Runner(Append(h, a), c, x) == RunnerNext(h, a, c, x)
  {
    forall x
      ensures Runner(Append(h, a), c, x) == RunnerNext(h, a, c, x)
    {
      RunnerAppend(h, a, c, x);
    }
  }

  lemma ShapeKeepsCpu(m: Machine, m': Machine, h: History, a: Action, d: nat)
    requires !a.Request? && Inv(m, h) && StepShape(m, m', a) && d < |m.cpus|
    ensures m'.curr[d] == CurrAfter(Append(h, a), d) && CpuOk(m', d)
  {
    CurrAppend(h, a, d);
    assert CpuOk(m, d);
  }

  lemma ShapeKeepsRunners(m: Machine, m': Machine, h: History, a: Action, d: nat)
    requires !a.Request? && Inv(m, h) && StepShape(m, m', a) && d < |m.cpus|
    requires m'.curr[d] == CurrAfter(Append(h, a), d)
    ensures RunningOk(m', Append(h, a), d) && MarksOk(m', Append(h, a), d)
  {
    assert RunningOk(m, h, d) && MarksOk(m, h, d);
    hide Runner, CurrAfter;
    RunnersAfter(h, a, d);
  }

  lemma ShapeKeepsInv(m: Machine, m': Machine, h: History, a: Action)
    requires !a.Request? && Inv(m, h) && StepShape(m, m', a)
    ensures Inv(m', Append(h, a))
  {
    hide CpuOk, RunningOk, MarksOk, CurrAfter;
    forall d: nat | d < |m.cpus|
      ensures m'.curr[d] == CurrAfter(Append(h, a), d) && CpuOk(m', d)
      ensures RunningOk(m', Append(h, a), d) && MarksOk(m', Append(h, a), d)
    {
      ShapeKeepsCpu(m, m', h, a, d);
      ShapeKeepsRunners(m, m', h, a, d);
    }
  }

  /** Every action keeps the structural invariant, an adoption of a new window size included as long as
      the new size fits every CPU. */
  lemma NextKeepsInv(m: Machine, h: History, a: Action)
    requires Inv(m, h) && Enabled(m, a) && AdoptionFits(m, a)
    ensures Inv(Next(m, a), Append(h, a))
    ensures !a.Request? ==> StepShape(m, Next(m, a), a)
  {
    match a
    case Request(w) =>
      RequestKeepsInv(m, h, a);
    case Switch(_, _, _, _, _) =>
      SwitchShape(m, h, a);
      ShapeKeepsInv(m, Next(m, a), h, a);
    case _ =>
      UpdateShape(m, h, a);
      ShapeKeepsInv(m, Next(m, a), h, a);
  }

  /** The guard of lse_irq_work never lets a window size of 0 through, nor any size that the updating
      CPU's clock has outrun: what is adopted is the pending size, and it is larger than the time since
      that CPU's window began. */
  lemma ZeroNeverAdopted(m: Machine, h: History, a: Action)
    requires Inv(m, h) && Enabled(m, a) && a.IrqWork?
    ensures |Next(m, a).cpus| == |m.cpus| && 0 < Next(m, a).cfg.window
    ensures Adopts(m, a) <==>
              m.newWindow != m.cfg.window && a.time - Next(m, a).cpus[a.cpu].windowStart < m.newWindow
    ensures Adopts(m, a) ==> 0 <= a.time - Next(m, a).cpus[a.cpu].windowStart && Next(m, a).cfg.window == m.newWindow
  {
    hide RavgRq, RavgTask;
    assert CpuOk(m, a.cpu);
    TouchFacts(m, a.cpu, m.curr[a.cpu], TaskUpdate, a.time, a.speed);
  }

  lemma RequestKeepsInv(m: Machine, h: History, a: Action)
    requires Inv(m, h) && a.Request? && Enabled(m, a)
    ensures Inv(Next(m, a), Append(h, a))
  {
    var h', m' := Append(h, a), Next(m, a);
    forall d | 0 <= d < |m.cpus|
      ensures m'.curr[d] == CurrAfter(h', d) && CpuOk(m', d)
    {
      CurrAppend(h, a, d);
      assert CpuOk(m, d);
    }
    forall d | 0 <= d < |m.cpus|
      ensures RunningOk(m', h', d) && MarksOk(m', h', d)
    {
      assert RunningOk(m, h, d) && MarksOk(m, h, d);
      RunnersAfter(h, a, d);
    }
  }
}
