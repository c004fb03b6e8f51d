/**
 The dispatch-queue layer of lse_dsq.c on values. Queue 0..9 are the global queues, queue 10 + c is
 the per-CPU queue of CPU c. A task's list node is in at most one fifo; unlinking it takes it out of
 the fifo it is in, whatever queue the caller classified the task to.
 */
module DsqModel {
  import opened Arith

  const GLOBAL_DSQS := 10        // LSE_MAX_GLOBAL_DSQS and LSE_DSQ_PCP_BASE
  const NON_PERIOD_START := 5    // LSE_DSQ_NON_PERIOD_START; the range ends at GLOBAL_DSQS
  const SCAN_INTERVAL := 4       // jiffies between two scans by one CPU

  // ----- classification -----

  datatype TaskClass = Idle | Background | Normal | Foreground | Rt | Deadline

  // What classification reads: pinned is nr_cpus_allowed == 1 or migration disabled, anyCpu is
  // cpumask_any(cpus_ptr), boost is boost_pct.
  datatype Attr = Attr(pinned: bool, anyCpu: nat, dlTask: bool, rtPrio: bool, cls: TaskClass, boost: int)

  // lse_dsq_classify_lts for a task that has its extension struct
  function Classify(a: Attr): nat {
    if a.pinned then GLOBAL_DSQS + a.anyCpu
    else if a.dlTask then 0
    else if a.rtPrio then 2
    else
      match a.cls
      case Rt => 0
      case Deadline => 0
      case Foreground => if a.boost > 1280 then 3 else 6
      case Normal => 8
      case _ => 9
  }

  /** Which tasks each queue can receive: four of the ten global queues (1, 4, 5 and 7) none, a per-CPU queue the tasks
      pinned to its CPU and no other. */
  lemma ClassRange(a: Attr)
    ensures Classify(a) in {0, 2, 3, 6, 8, 9} || Classify(a) >= 10
    ensures Classify(a) >= 10 <==> a.pinned
    ensures a.pinned ==> Classify(a) == 10 + a.anyCpu
    ensures Classify(a) == 0 <==> !a.pinned && (a.dlTask || (!a.rtPrio && a.cls in {Rt, Deadline}))
    ensures Classify(a) == 2 <==> !a.pinned && !a.dlTask && a.rtPrio
    ensures Classify(a) == 3 <==> !a.pinned && !a.dlTask && !a.rtPrio && a.cls.Foreground? && a.boost > 1280
    ensures Classify(a) == 6 <==> !a.pinned && !a.dlTask && !a.rtPrio && a.cls.Foreground? && a.boost <= 1280
    ensures Classify(a) == 8 <==> !a.pinned && !a.dlTask && !a.rtPrio && a.cls.Normal?
    ensures Classify(a) == 9 <==> !a.pinned && !a.dlTask && !a.rtPrio && a.cls in {Background, TaskClass.Idle}
  {
  }

  // How urgent a task class is meant to be: lower is more urgent.
  function Rank(c: TaskClass): nat {
    match c
    case Rt => 0
    case Deadline => 0
    case Foreground => 1
    case Normal => 2
    case _ => 3
  }

  /** Among tasks that may migrate, a more urgent one (deadline, then real-time, then by task class, boosted
      foreground first) is never put on a later queue, with one exception: a task that is neither but whose
      class is Rt or Deadline is put before every task of real-time priority. */
  lemma ClassOrder(a: Attr, b: Attr)
    requires !a.pinned && !b.pinned
    ensures a.dlTask ==> Classify(a) <= Classify(b)
    ensures !a.dlTask && !b.dlTask && a.rtPrio ==>
              (Classify(b) < Classify(a) <==> !b.rtPrio && b.cls in {Rt, Deadline})
    ensures !a.dlTask && !b.dlTask && !a.rtPrio && !b.rtPrio ==>
              (Rank(a.cls) < Rank(b.cls) ==> Classify(a) < Classify(b))
    ensures a == b.(boost := a.boost) && a.boost >= b.boost ==> Classify(a) <= Classify(b)
  {
  }

  // ----- state -----

  // struct lse_dispatch_q
  datatype Queue = Queue(fifo: seq<nat>, nr: int, lastConsumeAt: int, isTimeout: bool)

  datatype Dsq = Dsq(
    enable: bool,         // lse_dsq_enable
    stats: bool,          // slim_stats
    queues: seq<Queue>,
    on: seq<bool>,        // on_dsq of each task
    attr: seq<Attr>,
    lastScan: seq<int>,   // lse_dsq_last_scan_jf of each CPU
    limit: seq<nat>)      // each queue's deadline, in jiffies

  predicate WellFormed(d: Dsq) {
    && |d.queues| == GLOBAL_DSQS + |d.lastScan| == |d.limit|
    && |d.on| == |d.attr|
    && forall q, i :: 0 <= q < |d.queues| && 0 <= i < |d.queues[q].fifo| ==> d.queues[q].fifo[i] < |d.on|
  }

  function Home(d: Dsq, p: nat): nat
    requires p < |d.attr|
  {
    Classify(d.attr[p])
  }

  // ----- the locked bodies -----

  // __dsq_enqueue
  function Enqueue(d: Dsq, q: nat, p: nat, now: int): Dsq
    requires q < |d.queues| && p < |d.on|
  {
    var k := d.queues[q];
    d.(queues := d.queues[q := Queue(k.fifo + [p], k.nr + 1, if k.fifo == [] then now else k.lastConsumeAt, k.isTimeout)],
       on := d.on[p := true])
  }

  function Without(s: seq<nat>, p: nat): seq<nat> {
    if s == [] then []
    else Without(s[..|s| - 1], p) + if s[|s| - 1] == p then [] else [s[|s| - 1]]
  }

  // list_del_init of p's node
  function Unlink(queues: seq<Queue>, p: nat): (r: seq<Queue>)
    ensures |r| == |queues|
    ensures forall q :: 0 <= q < |queues| ==> r[q] == queues[q].(fifo := Without(queues[q].fifo, p))
  {
    seq(|queues|, q requires 0 <= q < |queues| => queues[q].(fifo := Without(queues[q].fifo, p)))
  }

  // __dsq_dequeue of a task that is on some queue, under the lock of queue q
  function Dequeue(d: Dsq, q: nat, p: nat, now: int): Dsq
    requires q < |d.queues| && p < |d.on|
  {
    var rest := Unlink(d.queues, p);
    var k := rest[q];
    var clear := k.fifo == [] && k.isTimeout;
    d.(queues := rest[q := Queue(k.fifo, Max(0, k.nr - 1),
                                 if clear then now else k.lastConsumeAt, k.isTimeout && !clear)],
       on := d.on[p := false])
  }

  // lse_dsq_enqueue_task; onRq is lse_task_on_rq(p), isCurr is p == cpu_rq(cpu)->curr
  function EnqueueTask(d: Dsq, p: nat, onRq: bool, isCurr: bool, now: int): Dsq
    requires p < |d.on| == |d.attr|
  {
    if d.enable && !d.on[p] && onRq && !isCurr && Home(d, p) < |d.queues|
    then Enqueue(d, Home(d, p), p, now)
    else d
  }

  // lse_dsq_dequeue_task
  function DequeueTask(d: Dsq, p: nat, now: int): Dsq
    requires p < |d.on| == |d.attr|
  {
    if d.enable && d.on[p] && Home(d, p) < |d.queues|
    then Dequeue(d, Home(d, p), p, now)
    else d
  }

  // One queue's turn in lse_dsq_scan_timeout.
  function Expire(k: Queue, limit: nat, now: int): Queue {
    if k.fifo != [] && !k.isTimeout && now > k.lastConsumeAt + limit then k.(isTimeout := true) else k
  }

  function Recover(k: Queue, now: int): Queue {
    if k.fifo == [] && k.isTimeout then k.(isTimeout := false, lastConsumeAt := now) else k
  }

  function Scanned(d: Dsq, cpu: nat, q: nat, now: int): Queue
    requires WellFormed(d) && q < |d.queues|
  {
    var k := d.queues[q];
    if q == GLOBAL_DSQS + cpu then Expire(k, d.limit[q], now)
    else if NON_PERIOD_START <= q < GLOBAL_DSQS then Recover(Expire(k, d.limit[q], now), now)
    else k
  }

  // lse_dsq_scan_timeout
  function ScanTimeout(d: Dsq, cpu: nat, now: int): Dsq
    requires WellFormed(d) && cpu < |d.lastScan|
  {
    if !d.enable then d
    else d.(queues := seq(|d.queues|, q requires 0 <= q < |d.queues| => Scanned(d, cpu, q, now)))
  }

  // The throttled scan at the end of lse_dsq_on_schedule.
  function ThrottledScan(d: Dsq, cpu: nat, now: int): Dsq
    requires WellFormed(d) && cpu < |d.lastScan|
  {
    if d.lastScan[cpu] + SCAN_INTERVAL < now
    then ScanTimeout(d.(lastScan := d.lastScan[cpu := now]), cpu, now)
    else d
  }

  predicate Queued(d: Dsq, p: nat) {
    exists q :: 0 <= q < |d.queues| && p in d.queues[q].fifo
  }

  // lse_dsq_sync
  function Sync(d: Dsq): Dsq {
    if d.enable then d
    else
      d.(queues := seq(|d.queues|, q requires 0 <= q < |d.queues| => Queue([], 0, d.queues[q].lastConsumeAt, false)),
         on := seq(|d.on|, p requires 0 <= p < |d.on| => d.on[p] && !Queued(d, p)))
  }

  // lse_dsq_on_schedule
  function AfterSchedule(d: Dsq, cpu: nat, prev: nat, next: nat, idle: set<nat>, prevOnRq: bool, prevHere: bool,
                         rqCurr: nat, now: int): Dsq
    requires WellFormed(d) && cpu < |d.lastScan| && prev < |d.on| && next < |d.on|
  {
    if !d.stats || !d.enable then d
    else
      KeepsForm(d, prev, next, idle, prevOnRq, prevHere, rqCurr, now);
      ThrottledScan(Switched(d, prev, next, idle, prevOnRq, prevHere, rqCurr, now), cpu, now)
  }

  // Its queue moves for one context switch.
  function Switched(d: Dsq, prev: nat, next: nat, idle: set<nat>, prevOnRq: bool, prevHere: bool,
                    rqCurr: nat, now: int): Dsq
    requires WellFormed(d) && prev < |d.on| && next < |d.on|
  {
    if prev == next then d
    else
      var d1 := PrevLeaves(d, prev, idle, prevOnRq, prevHere, rqCurr, now);
      if next !in idle then DequeueTask(d1, next, now) else d1
  }

  // The switched-out task goes on its queue if it is still runnable on this CPU.
  function PrevLeaves(d: Dsq, prev: nat, idle: set<nat>, prevOnRq: bool, prevHere: bool, rqCurr: nat, now: int): Dsq
    requires WellFormed(d) && prev < |d.on|
  {
    if prev !in idle && prevHere then EnqueueTask(d, prev, prevOnRq, prev == rqCurr, now) else d
  }

  lemma KeepsForm(d: Dsq, prev: nat, next: nat, idle: set<nat>, prevOnRq: bool, prevHere: bool,
                  rqCurr: nat, now: int)
    requires WellFormed(d) && prev < |d.on| && next < |d.on|
    ensures var r := Switched(d, prev, next, idle, prevOnRq, prevHere, rqCurr, now);
            WellFormed(r) && r.lastScan == d.lastScan && |r.on| == |d.on|
  {
    var d1 := PrevLeaves(d, prev, idle, prevOnRq, prevHere, rqCurr, now);
    assert WellFormed(d1);
    if prev != next && next !in idle {
      forall q | 0 <= q < |d1.queues|
        ensures forall i :: 0 <= i < |Without(d1.queues[q].fifo, next)| ==> Without(d1.queues[q].fifo, next)[i] < |d.on|
      {
        WithoutBounded(d1.queues[q].fifo, next, |d.on|);
      }
    }
  }

  lemma {:induction false} WithoutBounded(s: seq<nat>, p: nat, n: nat)
    requires forall i :: 0 <= i < |s| ==> s[i] < n
    ensures forall i :: 0 <= i < |Without(s, p)| ==> Without(s, p)[i] < n
  {
    if s != [] {
      WithoutBounded(s[..|s| - 1], p, n);
    }
  }

  // ----- what is reported -----

  function SumNr(queues: seq<Queue>): int {
    if queues == [] then 0 else SumNr(queues[..|queues| - 1]) + queues[|queues| - 1].nr
  }

  // lse_dsq_total_backlog, with every possible CPU online
  function TotalBacklog(d: Dsq): int { SumNr(d.queues) }

  function Timeouts(queues: seq<Queue>): nat {
    if queues == [] then 0
    else Timeouts(queues[..|queues| - 1]) + if queues[|queues| - 1].isTimeout then 1 else 0
  }

  // lse_dsq_urgency_signal
  function Urgency(d: Dsq): int
    requires |d.queues| >= GLOBAL_DSQS
  {
    if d.enable then Min(Timeouts(d.queues[..GLOBAL_DSQS]) * 256, 1024) else 0
  }

  /** What a scan by a CPU does to each queue. Its own per-CPU queue and global queues 5 to 9 are visited: a queue that
      is not empty is marked if it is overdue; a global one that is empty loses its mark and is stamped. */
  lemma ScanEffect(d: Dsq, cpu: nat, q: nat, now: int)
    requires WellFormed(d) && cpu < |d.lastScan| && q < |d.queues| && d.enable
    ensures var k, k' := d.queues[q], ScanTimeout(d, cpu, now).queues[q];
            && k'.fifo == k.fifo && k'.nr == k.nr
            && (q != 10 + cpu && !(5 <= q < 10) ==> k' == k)
            && (q == 10 + cpu ==>
                  && (k'.isTimeout <==> k.isTimeout || (k.fifo != [] && now > k.lastConsumeAt + d.limit[q]))
                  && k'.lastConsumeAt == k.lastConsumeAt)
            && (5 <= q < 10 ==>
                  && (k'.isTimeout <==> k.fifo != [] && (k.isTimeout || now > k.lastConsumeAt + d.limit[q]))
                  && k'.lastConsumeAt == if k.isTimeout && k.fifo == [] then now else k.lastConsumeAt)
  {
  }

  /** A CPU scans at most every five jiffies, and remembers when it did. */
  lemma ScanThrottled(d: Dsq, cpu: nat, now: int)
    requires WellFormed(d) && cpu < |d.lastScan|
    ensures now <= d.lastScan[cpu] + 4 ==> ThrottledScan(d, cpu, now) == d
    ensures now > d.lastScan[cpu] + 4 ==>
              && ThrottledScan(d, cpu, now).lastScan == d.lastScan[cpu := now]
              && ThrottledScan(d, cpu, now).queues == ScanTimeout(d, cpu, now).queues
  {
  }

  /** A dequeue clears the mark of the queue it locks iff that leaves the queue empty, and stamps it then; no other mark
      or stamp changes. */
  lemma DequeueMarks(d: Dsq, q: nat, p: nat, now: int, r: nat)
    requires q < |d.queues| && p < |d.on| && r < |d.queues|
    ensures var k, k' := d.queues[r], Dequeue(d, q, p, now).queues[r];
            && (k'.isTimeout <==> k.isTimeout && (r == q ==> k'.fifo != []))
            && k'.lastConsumeAt == if k.isTimeout && !k'.isTimeout then now else k.lastConsumeAt
  {
  }

  /** With the layer on a sync changes nothing. */
  lemma SyncNothing(d: Dsq)
    requires d.enable
    ensures Sync(d) == d
  {
  }

  function MarkedGlobals(d: Dsq): set<nat>
    requires |d.queues| >= 10
  {
    set q: nat | q < 10 && d.queues[q].isTimeout
  }

  lemma {:induction false} TimeoutsCount(queues: seq<Queue>)
    ensures Timeouts(queues) == |set q: nat | q < |queues| && queues[q].isTimeout|
  {
    var marked := set q: nat | q < |queues| && queues[q].isTimeout;
    if queues != [] {
      var front, last := queues[..|queues| - 1], |queues| - 1;
      TimeoutsCount(front);
      var rest := set q: nat | q < |front| && front[q].isTimeout;
      assert marked == if queues[last].isTimeout then rest + {last} else rest;
      assert last !in rest;
    }
  }

  /** The urgency is 256 for each marked global queue, up to 1024, and none while the layer is off. */
  lemma UrgencyCounts(d: Dsq)
    requires |d.queues| >= 10
    ensures !d.enable ==> Urgency(d) == 0
    ensures d.enable && |MarkedGlobals(d)| <= 4 ==> Urgency(d) == 256 * |MarkedGlobals(d)|
    ensures d.enable && |MarkedGlobals(d)| >= 4 ==> Urgency(d) == 1024
  {
    TimeoutsCount(d.queues[..GLOBAL_DSQS]);
    assert (set q: nat | q < |d.queues[..GLOBAL_DSQS]| && d.queues[..GLOBAL_DSQS][q].isTimeout) == MarkedGlobals(d);
  }
}
