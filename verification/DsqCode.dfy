/**
 The dispatch-queue layer as lse_dsq.c runs it: queue fields, per-task flags and scan stamps updated
 in place, loops over the queues. Every method computes the functions of DsqModel.
 */
module DsqCode {
  import opened Arith
  import opened DsqModel

  class DsqLayer {
    var enable: bool
    var stats: bool
    var queues: seq<Queue>
    var onDsq: seq<bool>
    var attr: seq<Attr>
    var lastScan: seq<int>
    const limit: seq<nat>

    // lse_dsq_init
    constructor (cpus: nat, attr: seq<Attr>, limit: seq<nat>, now: int)
      requires |limit| == GLOBAL_DSQS + cpus
      ensures WellFormed(View())
      ensures View() == Dsq(true, false, seq(GLOBAL_DSQS + cpus, _ => Queue([], 0, now, false)),
                            seq(|attr|, _ => false), attr, seq(cpus, _ => 0), limit)
    {
      enable, stats := true, false;
      queues := seq(GLOBAL_DSQS + cpus, _ => Queue([], 0, now, false));
      onDsq := seq(|attr|, _ => false);
      this.attr := attr;
      lastScan := seq(cpus, _ => 0);
      this.limit := limit;
    }

    function View(): Dsq
      reads this
    {
      Dsq(enable, stats, queues, onDsq, attr, lastScan, limit)
    }

    // __dsq_enqueue
    method EnqueueLocked(q: nat, p: nat, now: int)
      requires q < |queues| && p < |onDsq|
      modifies this`queues, this`onDsq
      ensures View() == Enqueue(old(View()), q, p, now)
    {
      if queues[q].fifo == [] {
        queues := queues[q := queues[q].(lastConsumeAt := now)];
      }
      queues := queues[q := queues[q].(fifo := queues[q].fifo + [p])];
      onDsq := onDsq[p := true];
      queues := queues[q := queues[q].(nr := queues[q].nr + 1)];
    }

    method EnqueueTask(p: nat, onRq: bool, isCurr: bool, now: int)
      requires p < |onDsq| == |attr|
      modifies this`queues, this`onDsq
      ensures View() == DsqModel.EnqueueTask(old(View()), p, onRq, isCurr, now)
    {
      if !enable || onDsq[p] {
        return;
      }
      if !onRq || isCurr {
        return;
      }
      var idx := Classify(attr[p]);
      if idx < |queues| {
        EnqueueLocked(idx, p, now);
      }
    }

    // __dsq_dequeue
    method DequeueLocked(q: nat, p: nat, now: int)
      requires q < |queues| && p < |onDsq| && onDsq[p]
      modifies this`queues, this`onDsq
      ensures View() == Dequeue(old(View()), q, p, now)
    {
      queues := Unlink(queues, p);
      onDsq := onDsq[p := false];
      queues := queues[q := queues[q].(nr := Max(0, queues[q].nr - 1))];
      if queues[q].fifo == [] && queues[q].isTimeout {
        queues := queues[q := queues[q].(isTimeout := false, lastConsumeAt := now)];
      }
    }

    method DequeueTask(p: nat, now: int)
      requires p < |onDsq| == |attr|
      modifies this`queues, this`onDsq
      ensures View() == DsqModel.DequeueTask(old(View()), p, now)
    {
      if !enable || !onDsq[p] {
        return;
      }
      var idx := Classify(attr[p]);
      if idx < |queues| {
        DequeueLocked(idx, p, now);
      }
    }

    method ScanTimeout(cpu: nat, now: int)
      requires WellFormed(View()) && cpu < |lastScan|
      modifies this`queues
      ensures View() == DsqModel.ScanTimeout(old(View()), cpu, now)
    {
      if !enable {
        return;
      }
      var mine := GLOBAL_DSQS + cpu;
      if queues[mine].fifo != [] && !queues[mine].isTimeout {
        if now > queues[mine].lastConsumeAt + limit[mine] {
          queues := queues[mine := queues[mine].(isTimeout := true)];
        }
      }
      var i := NON_PERIOD_START;
      while i < GLOBAL_DSQS
        invariant NON_PERIOD_START <= i <= GLOBAL_DSQS && |queues| == |old(queues)|
        invariant forall q :: 0 <= q < |queues| ==>
                    queues[q] == if i <= q < GLOBAL_DSQS then old(queues)[q] else Scanned(old(View()), cpu, q, now)
      {
        if queues[i].fifo != [] && !queues[i].isTimeout {
          if now > queues[i].lastConsumeAt + limit[i] {
            queues := queues[i := queues[i].(isTimeout := true)];
          }
        }
        if queues[i].fifo == [] && queues[i].isTimeout {
          queues := queues[i := queues[i].(isTimeout := false, lastConsumeAt := now)];
        }
        i := i + 1;
      }
    }

    /** lse_dsq_on_schedule: with both switches on, a switched-out task that is still runnable here is
        enqueued, the switched-in task is dequeued, and the timeout scan runs if it is due. */
    method OnSchedule(cpu: nat, prev: nat, next: nat, idle: set<nat>, prevOnRq: bool, prevHere: bool, rqCurr: nat,
                      now: int)
      requires WellFormed(View()) && cpu < |lastScan| && prev < |onDsq| && next < |onDsq|
      modifies this`queues, this`onDsq, this`lastScan
      ensures View() == AfterSchedule(old(View()), cpu, prev, next, idle, prevOnRq, prevHere, rqCurr, now)
    {
      if !stats || !enable {
        return;
      }
      if prev != next {
        if prev !in idle && prevOnRq && prevHere {
          EnqueueTask(prev, prevOnRq, prev == rqCurr, now);
        }
        if next !in idle {
          DequeueTask(next, now);
        }
      }
      KeepsForm(old(View()), prev, next, idle, prevOnRq, prevHere, rqCurr, now);
      if lastScan[cpu] + SCAN_INTERVAL < now {
        lastScan := lastScan[cpu := now];
        ScanTimeout(cpu, now);
      }
    }

    method TotalBacklog() returns (total: int)
      requires |queues| >= GLOBAL_DSQS
      ensures total == DsqModel.TotalBacklog(View())
    {
      total := 0;
      var i := 0;
      while i < GLOBAL_DSQS
        invariant 0 <= i <= GLOBAL_DSQS && total == SumNr(queues[..i])
      {
        assert queues[..i + 1][..i] == queues[..i];
        total := total + queues[i].nr;
        i := i + 1;
      }
      while i < |queues|
        invariant GLOBAL_DSQS <= i <= |queues| && total == SumNr(queues[..i])
      {
        assert queues[..i + 1][..i] == queues[..i];
        total := total + queues[i].nr;
        i := i + 1;
      }
      assert queues[..i] == queues;
    }

    method UrgencySignal() returns (urgency: int)
      requires |queues| >= GLOBAL_DSQS
      ensures urgency == Urgency(View())
    {
      if !enable {
        return 0;
      }
      var timeouts := 0;
      var i := 0;
      while i < GLOBAL_DSQS
        invariant 0 <= i <= GLOBAL_DSQS && timeouts == Timeouts(queues[..i])
      {
        assert queues[..i + 1][..i] == queues[..i];
        if queues[i].isTimeout {
          timeouts := timeouts + 1;
        }
        i := i + 1;
      }
      urgency := Min(timeouts * 256, 1024);
    }

    // Empties one queue, clearing the flag of each task it held.
    method DrainQueue(q: nat)
      requires WellFormed(View()) && q < |queues|
      modifies this`queues, this`onDsq
      ensures queues == old(queues)[q := Queue([], 0, old(queues)[q].lastConsumeAt, false)]
      ensures |onDsq| == |old(onDsq)|
      ensures forall p :: 0 <= p < |onDsq| ==> (onDsq[p] <==> old(onDsq)[p] && p !in old(queues)[q].fifo)
    {
      ghost var fifo := queues[q].fifo;
      ghost var was := onDsq;
      while queues[q].fifo != []
        invariant |queues| == |old(queues)| && |onDsq| == |was|
        invariant |queues[q].fifo| <= |fifo| && queues[q].fifo == fifo[|fifo| - |queues[q].fifo|..]
        invariant queues == old(queues)[q := old(queues)[q].(fifo := queues[q].fifo)]
        invariant forall p :: 0 <= p < |onDsq| ==>
                    (onDsq[p] <==> was[p] && p !in fifo[..|fifo| - |queues[q].fifo|])
        decreases |queues[q].fifo|
      {
        var p := queues[q].fifo[0];
        ghost var k := |fifo| - |queues[q].fifo|;
        assert fifo[..k + 1] == fifo[..k] + [p];
        queues := queues[q := queues[q].(fifo := queues[q].fifo[1..])];
        onDsq := onDsq[p := false];
      }
      assert fifo[..|fifo|] == fifo;
      queues := queues[q := queues[q].(nr := 0, isTimeout := false)];
    }

    // lse_dsq_sync
    method Sync()
      requires WellFormed(View())
      modifies this`queues, this`onDsq
      ensures View() == DsqModel.Sync(old(View()))
      ensures !enable ==>
                forall q :: 0 <= q < |queues| ==> queues[q].fifo == [] && queues[q].nr == 0 && !queues[q].isTimeout
    {
      if enable {
        return;
      }
      var q := 0;
      while q < |queues|
        invariant 0 <= q <= |queues| == |old(queues)| && |onDsq| == |old(onDsq)|
        invariant forall r :: 0 <= r < |queues| ==>
                    queues[r] == if r < q then Queue([], 0, old(queues)[r].lastConsumeAt, false) else old(queues)[r]
        invariant forall p :: 0 <= p < |onDsq| ==>
                    (onDsq[p] <==> old(onDsq)[p] && forall r :: 0 <= r < q ==> p !in old(queues)[r].fifo)
        invariant WellFormed(View())
      {
        DrainQueue(q);
        q := q + 1;
      }
    }
  }
}
