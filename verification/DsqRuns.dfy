/**
 The dispatch queues over whole runs: schedule hooks on any CPU, classes, switches and syncs in any
 order. An outside observer notes when each task was last put on a queue and when each queue last
 stopped being empty; the invariants relate the layer's own fields to those notes.
 */
module DsqRuns {
  import opened Arith
  import opened DsqModel

  // What an observer of the fifos and flags has seen.
  datatype Notes = Notes(
    clock: nat,         // locked bodies observed so far
    stamp: seq<nat>,    // when each task was last put on a queue
    since: seq<int>)    // when each queue last stopped being empty

  function Observe(n: Notes, d: Dsq, d': Dsq, now: int): Notes
    requires |n.stamp| == |d.on| == |d'.on| && |n.since| == |d.queues| == |d'.queues|
  {
    Notes(n.clock + 1,
          seq(|n.stamp|, p requires 0 <= p < |n.stamp| => if d'.on[p] && !d.on[p] then n.clock else n.stamp[p]),
          seq(|n.since|, q requires 0 <= q < |n.since| =>
                if d.queues[q].fifo == [] && d'.queues[q].fifo != [] then now else n.since[q]))
  }

  // ----- membership and order -----

  predicate Ordered(s: seq<nat>, stamp: seq<nat>) {
    && (forall i :: 0 <= i < |s| ==> s[i] < |stamp|)
    && (forall i, j :: 0 <= i < j < |s| ==> stamp[s[i]] < stamp[s[j]])
  }

  predicate Disjoint(d: Dsq) {
    forall q, r, p :: 0 <= q < r < |d.queues| && p in d.queues[q].fifo ==> p !in d.queues[r].fifo
  }

  predicate Membership(d: Dsq) {
    && WellFormed(d)
    && (forall p: nat :: p < |d.on| ==> (d.on[p] <==> Queued(d, p)))
    && Disjoint(d)
  }

  predicate InOrder(d: Dsq, n: Notes) {
    && |n.stamp| == |d.on| && |n.since| == |d.queues|
    && (forall p :: 0 <= p < |n.stamp| && d.on[p] ==> n.stamp[p] < n.clock)
    && (forall q :: 0 <= q < |d.queues| ==> Ordered(d.queues[q].fifo, n.stamp))
  }

  lemma {:induction false} WithoutMembers(s: seq<nat>, p: nat)
    ensures forall x :: x in Without(s, p) <==> x in s && x != p
    ensures p !in s ==> Without(s, p) == s
    decreases |s|
  {
    if s != [] {
      var front, last := s[..|s| - 1], s[|s| - 1];
      WithoutMembers(front, p);
      assert s == front + [last];
      assert forall x :: x in s <==> x in front || x == last;
    }
  }

  lemma LastIsNew(s: seq<nat>, stamp: seq<nat>)
    requires Ordered(s, stamp) && s != []
    ensures Ordered(s[..|s| - 1], stamp)
    ensures forall x :: x in s[..|s| - 1] ==> x < |stamp| && stamp[x] < stamp[s[|s| - 1]]
  {
    var front := s[..|s| - 1];
    forall i | 0 <= i < |front|
      ensures front[i] < |stamp| && stamp[front[i]] < stamp[s[|s| - 1]]
    {
      assert front[i] == s[i];
    }
  }

  lemma OrderedAppend(s: seq<nat>, last: nat, stamp: seq<nat>)
    requires Ordered(s, stamp) && last < |stamp|
    requires forall x :: x in s ==> stamp[x] < stamp[last]
    ensures Ordered(s + [last], stamp)
  {
  }

  lemma InFrontOrLast(s: seq<nat>, p: nat)
    requires s != []
    ensures p in s <==> p in s[..|s| - 1] || p == s[|s| - 1]
  {
    assert s == s[..|s| - 1] + [s[|s| - 1]];
  }

  lemma {:induction false} WithoutLength(s: seq<nat>, p: nat, stamp: seq<nat>)
    requires Ordered(s, stamp)
    ensures |Without(s, p)| == if p in s then |s| - 1 else |s|
    decreases |s|
  {
    if s != [] {
      LastIsNew(s, stamp);
      hide Ordered;
      WithoutLength(s[..|s| - 1], p, stamp);
      InFrontOrLast(s, p);
    }
  }

  lemma {:induction false} WithoutOrdered(s: seq<nat>, p: nat, stamp: seq<nat>)
    requires Ordered(s, stamp)
    ensures Ordered(Without(s, p), stamp)
    decreases |s|
  {
    if s != [] {
      var front, last := s[..|s| - 1], s[|s| - 1];
      LastIsNew(s, stamp);
      assert last < |stamp|;
      hide Ordered;
      WithoutOrdered(front, p, stamp);
      WithoutMembers(front, p);
      if last != p {
        OrderedAppend(Without(front, p), last, stamp);
      } else {
        assert Without(front, p) + [] == Without(front, p);
      }
    }
  }

  // The two things every locked body keeps.
  predicate Base(d: Dsq, n: Notes) { Membership(d) && InOrder(d, n) }

  lemma EnqueueOrdered(d: Dsq, n: Notes, q: nat, p: nat, now: int, r: nat)
    requires Base(d, n) && q < |d.queues| && p < |d.on| && !d.on[p] && r < |d.queues|
    ensures Ordered(Enqueue(d, q, p, now).queues[r].fifo, Observe(n, d, Enqueue(d, q, p, now), now).stamp)
  {
    var d' := Enqueue(d, q, p, now);
    var n' := Observe(n, d, d', now);
    var fifo := d.queues[r].fifo;
    assert Ordered(fifo, n.stamp) && !Queued(d, p);
    assert forall x :: 0 <= x < |d.on| && x != p ==> n'.stamp[x] == n.stamp[x];
    assert n'.stamp[p] == n.clock;
    forall i | 0 <= i < |fifo|
      ensures fifo[i] < |d.on| && fifo[i] != p && n.stamp[fifo[i]] < n.clock
    {
      assert fifo[i] in fifo;
      assert Queued(d, fifo[i]);
    }
  }

  lemma EnqueueBase(d: Dsq, n: Notes, q: nat, p: nat, now: int)
    requires Base(d, n) && q < |d.queues| && p < |d.on| && !d.on[p]
    ensures Base(Enqueue(d, q, p, now), Observe(n, d, Enqueue(d, q, p, now), now))
  {
    var d' := Enqueue(d, q, p, now);
    var n' := Observe(n, d, d', now);
    assert !Queued(d, p);
    assert d'.queues[q].fifo == d.queues[q].fifo + [p];
    assert forall r :: 0 <= r < |d.queues| && r != q ==> d'.queues[r] == d.queues[r];
    assert d'.on == d.on[p := true] && |n'.stamp| == |d'.on| && |n'.since| == |d'.queues|;
    assert forall x :: 0 <= x < |d.on| && d'.on[x] ==> n'.stamp[x] < n'.clock;
    forall r: nat | r < |d.queues|
      ensures Ordered(d'.queues[r].fifo, n'.stamp)
    {
      EnqueueOrdered(d, n, q, p, now, r);
    }
    hide Observe, Ordered;
    forall x: nat | x < |d.on|
      ensures d'.on[x] <==> Queued(d', x)
    {
      if x == p {
        assert p in d'.queues[q].fifo;
      } else if d.on[x] {
        var r :| 0 <= r < |d.queues| && x in d.queues[r].fifo;
        assert x in d'.queues[r].fifo;
      }
    }
  }

  lemma DequeueLists(d: Dsq, n: Notes, q: nat, p: nat, now: int, r: nat)
    requires Base(d, n) && q < |d.queues| && p < |d.on| && r < |d.queues|
    ensures Dequeue(d, q, p, now).queues[r].fifo == Without(d.queues[r].fifo, p)
    ensures forall x {:trigger x in Without(d.queues[r].fifo, p)} ::
              x in Without(d.queues[r].fifo, p) <==> x in d.queues[r].fifo && x != p
    ensures Ordered(Without(d.queues[r].fifo, p), n.stamp)
  {
    WithoutMembers(d.queues[r].fifo, p);
    WithoutOrdered(d.queues[r].fifo, p, n.stamp);
  }

  lemma DequeueBase(d: Dsq, n: Notes, q: nat, p: nat, now: int)
    requires Base(d, n) && q < |d.queues| && p < |d.on|
    ensures Base(Dequeue(d, q, p, now), Observe(n, d, Dequeue(d, q, p, now), now))
  {
    var d' := Dequeue(d, q, p, now);
    var n' := Observe(n, d, d', now);
    assert d'.on == d.on[p := false] && |d'.queues| == |d.queues|;
    assert n'.stamp == n.stamp && d'.lastScan == d.lastScan && d'.attr == d.attr && d'.limit == d.limit;
    forall r: nat | r < |d.queues|
      ensures forall x {:trigger x in d'.queues[r].fifo} :: x in d'.queues[r].fifo <==> x in d.queues[r].fifo && x != p
      ensures Ordered(d'.queues[r].fifo, n'.stamp)
    {
      DequeueLists(d, n, q, p, now, r);
    }
    hide Dequeue, Observe;
    forall x: nat | x < |d.on|
      ensures d'.on[x] <==> Queued(d', x)
    {
      if d.on[x] && x != p {
        assert Queued(d, x);
        var r: nat :| r < |d.queues| && x in d.queues[r].fifo;
        assert x in d'.queues[r].fifo;
      }
    }
    assert Disjoint(d');
    assert InOrder(d', n');
  }

  // A body that changes neither a fifo nor a flag.
  predicate SameLists(d: Dsq, d': Dsq) {
    && |d'.queues| == |d.queues| && d'.on == d.on && |d'.lastScan| == |d.lastScan| && d'.limit == d.limit
    && |d'.attr| == |d.attr|
    && forall q :: 0 <= q < |d.queues| ==> d'.queues[q].fifo == d.queues[q].fifo
  }

  lemma SameListsBase(d: Dsq, d': Dsq, n: Notes, now: int)
    requires Base(d, n) && SameLists(d, d')
    ensures Base(d', n) && Base(d', Observe(n, d, d', now))
  {
    forall x: nat | x < |d.on|
      ensures d'.on[x] <==> Queued(d', x)
    {
      if d.on[x] {
        var r :| 0 <= r < |d.queues| && x in d.queues[r].fifo;
        assert x in d'.queues[r].fifo;
      }
    }
    assert Observe(n, d, d', now).stamp == n.stamp;
    assert Observe(n, d, d', now).since == n.since;
  }

  lemma SyncBase(d: Dsq, n: Notes, now: int)
    requires Base(d, n)
    ensures Base(Sync(d), Observe(n, d, Sync(d), now))
  {
    if d.enable {
      SameListsBase(d, d, n, now);
    } else {
      var d' := Sync(d);
      assert forall q :: 0 <= q < |d.queues| ==> d'.queues[q].fifo == [];
      assert forall x :: 0 <= x < |d.on| ==> !d'.on[x];
      assert forall x :: !Queued(d', x);
    }
  }

  // ----- counters -----

  function SumLen(queues: seq<Queue>): nat {
    if queues == [] then 0 else SumLen(queues[..|queues| - 1]) + |queues[|queues| - 1].fifo|
  }

  function CountOn(on: seq<bool>): nat {
    if on == [] then 0 else CountOn(on[..|on| - 1]) + if on[|on| - 1] then 1 else 0
  }

  lemma {:induction false} CountOnUpdate(on: seq<bool>, p: nat, b: bool)
    requires p < |on|
    ensures CountOn(on[p := b]) == CountOn(on) - (if on[p] then 1 else 0) + (if b then 1 else 0)
    decreases |on|
  {
    var front := on[..|on| - 1];
    if p == |on| - 1 {
      assert on[p := b][..|on| - 1] == front;
    } else {
      CountOnUpdate(front, p, b);
      assert on[p := b][..|on| - 1] == front[p := b];
    }
  }

  lemma {:induction false} CountOnNone(on: seq<bool>)
    requires forall p :: 0 <= p < |on| ==> !on[p]
    ensures CountOn(on) == 0
    decreases |on|
  {
    if on != [] {
      CountOnNone(on[..|on| - 1]);
    }
  }

  lemma {:induction false} SumsUpdate(queues: seq<Queue>, q: nat, k: Queue)
    requires q < |queues|
    ensures SumLen(queues[q := k]) == SumLen(queues) - |queues[q].fifo| + |k.fifo|
    ensures SumNr(queues[q := k]) == SumNr(queues) - queues[q].nr + k.nr
    decreases |queues|
  {
    var front := queues[..|queues| - 1];
    if q == |queues| - 1 {
      assert queues[q := k][..|queues| - 1] == front;
    } else {
      SumsUpdate(front, q, k);
      assert queues[q := k][..|queues| - 1] == front[q := k];
    }
  }

  lemma {:induction false} SumsAgree(a: seq<Queue>, b: seq<Queue>)
    requires |a| == |b|
    requires forall q :: 0 <= q < |a| ==> a[q].fifo == b[q].fifo && a[q].nr == b[q].nr
    ensures SumLen(a) == SumLen(b) && SumNr(a) == SumNr(b)
    decreases |a|
  {
    if a != [] {
      SumsAgree(a[..|a| - 1], b[..|b| - 1]);
    }
  }

  lemma {:induction false} SumsZero(queues: seq<Queue>)
    requires forall q :: 0 <= q < |queues| ==> queues[q].fifo == [] && queues[q].nr == 0
    ensures SumLen(queues) == 0 && SumNr(queues) == 0
    decreases |queues|
  {
    if queues != [] {
      SumsZero(queues[..|queues| - 1]);
    }
  }

  // Classes free to change: counters never negative, and together never below the number queued.
  predicate Counted(d: Dsq) {
    && (forall q :: 0 <= q < |d.queues| ==> d.queues[q].nr >= 0)
    && SumLen(d.queues) == CountOn(d.on)
    && SumNr(d.queues) >= SumLen(d.queues)
  }

  lemma EnqueueCounted(d: Dsq, q: nat, p: nat, now: int)
    requires WellFormed(d) && Counted(d) && q < |d.queues| && p < |d.on| && !d.on[p]
    ensures Counted(Enqueue(d, q, p, now))
  {
    SumsUpdate(d.queues, q, Enqueue(d, q, p, now).queues[q]);
    CountOnUpdate(d.on, p, true);
  }

  lemma UnlinkOne(d: Dsq, n: Notes, h: nat, p: nat)
    requires Base(d, n) && h < |d.queues| && p in d.queues[h].fifo
    ensures Unlink(d.queues, p) == d.queues[h := d.queues[h].(fifo := Without(d.queues[h].fifo, p))]
    ensures |Without(d.queues[h].fifo, p)| == |d.queues[h].fifo| - 1
  {
    forall q | 0 <= q < |d.queues|
      ensures Unlink(d.queues, p)[q] == d.queues[h := d.queues[h].(fifo := Without(d.queues[h].fifo, p))][q]
    {
      WithoutMembers(d.queues[q].fifo, p);
    }
    assert Ordered(d.queues[h].fifo, n.stamp);
    WithoutLength(d.queues[h].fifo, p, n.stamp);
  }

  // The classified queue after the dequeue, given its list without the task.
  function Settle(k: Queue, now: int): Queue {
    var clear := k.fifo == [] && k.isTimeout;
    Queue(k.fifo, Max(0, k.nr - 1), if clear then now else k.lastConsumeAt, k.isTimeout && !clear)
  }

  lemma DequeueIs(d: Dsq, n: Notes, q: nat, p: nat, now: int) returns (h: nat, rest: seq<Queue>)
    requires Base(d, n) && q < |d.queues| && p < |d.on| && d.on[p]
    ensures h < |d.queues| && p in d.queues[h].fifo
    ensures rest == d.queues[h := d.queues[h].(fifo := Without(d.queues[h].fifo, p))]
    ensures |Without(d.queues[h].fifo, p)| == |d.queues[h].fifo| - 1
    ensures Dequeue(d, q, p, now) == d.(queues := rest[q := Settle(rest[q], now)], on := d.on[p := false])
  {
    assert Queued(d, p);
    h :| h < |d.queues| && p in d.queues[h].fifo;
    UnlinkOne(d, n, h, p);
    rest := Unlink(d.queues, p);
  }

  lemma DequeueCounted(d: Dsq, n: Notes, q: nat, p: nat, now: int)
    requires Base(d, n) && Counted(d) && q < |d.queues| && p < |d.on| && d.on[p]
    ensures Counted(Dequeue(d, q, p, now))
  {
    hide Base, Without, Dequeue, SumLen, SumNr, CountOn;
    var h, rest := DequeueIs(d, n, q, p, now);
    SumsUpdate(d.queues, h, rest[h]);
    SumsUpdate(rest, q, Settle(rest[q], now));
    CountOnUpdate(d.on, p, false);
  }

  lemma SameListsCounted(d: Dsq, d': Dsq)
    requires Counted(d) && SameLists(d, d')
    requires forall q :: 0 <= q < |d.queues| ==> d'.queues[q].nr == d.queues[q].nr
    ensures Counted(d')
  {
    SumsAgree(d.queues, d'.queues);
  }

  lemma SyncCounted(d: Dsq, n: Notes)
    requires Base(d, n) && Counted(d)
    ensures Counted(Sync(d))
  {
    if !d.enable {
      SumsZero(Sync(d).queues);
      CountOnNone(Sync(d).on);
    }
  }

  // Classes stable while queued: each task sits on the queue of its class, and counters are exact.
  predicate AtHome(d: Dsq)
    requires WellFormed(d)
  {
    && (forall q, i :: 0 <= q < |d.queues| && 0 <= i < |d.queues[q].fifo| ==> Home(d, d.queues[q].fifo[i]) == q)
    && (forall q :: 0 <= q < |d.queues| ==> d.queues[q].nr == |d.queues[q].fifo|)
  }

  lemma EnqueueAtHome(d: Dsq, p: nat, now: int)
    requires WellFormed(d) && AtHome(d) && p < |d.on| && Home(d, p) < |d.queues|
    ensures WellFormed(Enqueue(d, Home(d, p), p, now)) && AtHome(Enqueue(d, Home(d, p), p, now))
  {
  }

  /** With stable classes the saturating decrement never saturates: the counter was the fifo's length. */
  lemma DequeueAtHome(d: Dsq, n: Notes, p: nat, now: int)
    requires Base(d, n) && AtHome(d) && p < |d.on| && d.on[p] && Home(d, p) < |d.queues|
    ensures WellFormed(Dequeue(d, Home(d, p), p, now)) && AtHome(Dequeue(d, Home(d, p), p, now))
    ensures d.queues[Home(d, p)].nr >= 1
  {
    DequeueBase(d, n, Home(d, p), p, now);
    hide Base, Without, Dequeue;
    var h, rest := DequeueIs(d, n, Home(d, p), p, now);
    QueuedAtHome(d, h, p);
    StaysHome(d, Dequeue(d, h, p, now), h, p);
  }

  lemma QueuedAtHome(d: Dsq, h: nat, p: nat)
    requires WellFormed(d) && AtHome(d) && h < |d.queues| && p in d.queues[h].fifo
    ensures p < |d.on| && Home(d, p) == h
  {
  }

  predicate Exact(queues: seq<Queue>) {
    forall q :: 0 <= q < |queues| ==> queues[q].nr == |queues[q].fifo|
  }

  /** Why stable classes are needed: a dequeue keeps the counters exact exactly when the task is still
      classified to the queue it sits on. */
  lemma DequeueExactIff(d: Dsq, n: Notes, p: nat, h: nat, now: int)
    requires Base(d, n) && Exact(d.queues) && p < |d.on| && d.on[p] && Home(d, p) < |d.queues|
    requires h < |d.queues| && p in d.queues[h].fifo
    ensures Exact(Dequeue(d, Home(d, p), p, now).queues) <==> Home(d, p) == h
  {
    var q := Home(d, p);
    hide Base, Without, Dequeue, Exact;
    var at, rest := DequeueIs(d, n, q, p, now);
    OneQueue(d, n, p, at, h);
    SettleExactIff(d.queues, h, Without(d.queues[h].fifo, p), q, now);
  }

  lemma OneQueue(d: Dsq, n: Notes, p: nat, q: nat, r: nat)
    requires Base(d, n) && q < |d.queues| && r < |d.queues| && p in d.queues[q].fifo && p in d.queues[r].fifo
    ensures q == r
  {
  }

  lemma SettleExactIff(queues: seq<Queue>, h: nat, without: seq<nat>, q: nat, now: int)
    requires Exact(queues) && h < |queues| && q < |queues| && |without| == |queues[h].fifo| - 1
    ensures var rest := queues[h := queues[h].(fifo := without)];
            Exact(rest[q := Settle(rest[q], now)]) <==> q == h
  {
    var rest := queues[h := queues[h].(fifo := without)];
    var r := rest[q := Settle(rest[q], now)];
    if q != h {
      assert r[h].nr == |r[h].fifo| + 1;
    }
  }

  lemma StaysHome(d: Dsq, d': Dsq, h: nat, p: nat)
    requires WellFormed(d) && WellFormed(d') && AtHome(d)
    requires d'.attr == d.attr && |d'.queues| == |d.queues| && h < |d.queues|
    requires forall q :: 0 <= q < |d.queues| && q != h ==> d'.queues[q] == d.queues[q]
    requires d'.queues[h].fifo == Without(d.queues[h].fifo, p) && d'.queues[h].nr == |d'.queues[h].fifo|
    ensures AtHome(d')
  {
    WithoutMembers(d.queues[h].fifo, p);
    forall j | 0 <= j < |d'.queues[h].fifo|
      ensures Home(d', d'.queues[h].fifo[j]) == h
    {
      assert d'.queues[h].fifo[j] in d.queues[h].fifo;
    }
  }

  // ----- timeouts -----

  // A queue that is not empty has been so since last_consume_at; only the queues a scan visits, and
  // among the global ones only those that can hold tasks, are ever marked.
  predicate Timed(d: Dsq, n: Notes, now: int) {
    && |n.since| == |d.queues|
    && (forall q :: 0 <= q < |d.queues| && d.queues[q].fifo != [] ==>
          d.queues[q].lastConsumeAt == n.since[q] <= now)
    && (forall q :: 0 <= q < |d.queues| && q < GLOBAL_DSQS && q !in {0, 2, 3, 6, 8, 9} ==> d.queues[q].fifo == [])
    && (forall q :: 0 <= q < |d.queues| && q < GLOBAL_DSQS && q !in {6, 8, 9} ==> !d.queues[q].isTimeout)
  }

  // Stable classes only: a marked queue is not empty and has been so beyond its deadline.
  predicate Overdue(d: Dsq, n: Notes, now: int) {
    |n.since| == |d.queues| == |d.limit|
    && forall q :: 0 <= q < |d.queues| && d.queues[q].isTimeout ==>
         d.queues[q].fifo != [] && now > n.since[q] + d.limit[q]
  }

  lemma EnqueueTimed(d: Dsq, n: Notes, p: nat, now: int)
    requires Base(d, n) && Timed(d, n, now) && p < |d.on| && Home(d, p) < |d.queues|
    ensures Timed(Enqueue(d, Home(d, p), p, now), Observe(n, d, Enqueue(d, Home(d, p), p, now), now), now)
    ensures Overdue(d, n, now) ==>
              Overdue(Enqueue(d, Home(d, p), p, now), Observe(n, d, Enqueue(d, Home(d, p), p, now), now), now)
  {
    ClassRange(d.attr[p]);
  }

  lemma DequeueTimed(d: Dsq, n: Notes, q: nat, p: nat, now: int)
    requires Base(d, n) && Timed(d, n, now) && q < |d.queues| && p < |d.on|
    ensures Timed(Dequeue(d, q, p, now), Observe(n, d, Dequeue(d, q, p, now), now), now)
    ensures Overdue(d, n, now) && AtHome(d) && q == Home(d, p) ==>
              Overdue(Dequeue(d, q, p, now), Observe(n, d, Dequeue(d, q, p, now), now), now)
  {
    var d' := Dequeue(d, q, p, now);
    forall r | 0 <= r < |d.queues|
      ensures d'.queues[r].fifo == Without(d.queues[r].fifo, p)
      ensures d.queues[r].fifo == [] ==> d'.queues[r].fifo == []
      ensures AtHome(d) && q == Home(d, p) && r != q ==> d'.queues[r] == d.queues[r]
    {
      WithoutMembers(d.queues[r].fifo, p);
    }
  }

  lemma ScannedQueue(d: Dsq, cpu: nat, q: nat, now: int)
    requires WellFormed(d) && cpu < |d.lastScan| && q < |d.queues|
    ensures var k, k' := d.queues[q], ThrottledScan(d, cpu, now).queues[q];
            && k'.fifo == k.fifo && k'.nr == k.nr
            && (k.fifo != [] ==> k'.lastConsumeAt == k.lastConsumeAt)
            && (k'.isTimeout && !k.isTimeout ==> k.fifo != [] && now > k.lastConsumeAt + d.limit[q])
            && (k'.isTimeout && !k.isTimeout && q < GLOBAL_DSQS ==> NON_PERIOD_START <= q)
  {
  }

  lemma ScanTimed(d: Dsq, n: Notes, cpu: nat, now: int)
    requires Base(d, n) && Timed(d, n, now) && cpu < |d.lastScan|
    ensures SameLists(d, ThrottledScan(d, cpu, now))
    ensures Timed(ThrottledScan(d, cpu, now), Observe(n, d, ThrottledScan(d, cpu, now), now), now)
    ensures Overdue(d, n, now) ==>
              Overdue(ThrottledScan(d, cpu, now), Observe(n, d, ThrottledScan(d, cpu, now), now), now)
    ensures forall q :: 0 <= q < |d.queues| ==> ThrottledScan(d, cpu, now).queues[q].nr == d.queues[q].nr
  {
    var d' := ThrottledScan(d, cpu, now);
    assert |d'.queues| == |d.queues| && d'.on == d.on && |d'.lastScan| == |d.lastScan| && d'.limit == d.limit
      && d'.attr == d.attr;
    forall q: nat | q < |d.queues|
      ensures var k, k' := d.queues[q], d'.queues[q];
              && k'.fifo == k.fifo && k'.nr == k.nr
              && (k.fifo != [] ==> k'.lastConsumeAt == k.lastConsumeAt)
              && (k'.isTimeout && !k.isTimeout ==> k.fifo != [] && now > k.lastConsumeAt + d.limit[q])
              && (k'.isTimeout && !k.isTimeout && q < GLOBAL_DSQS ==> NON_PERIOD_START <= q)
    {
      ScannedQueue(d, cpu, q, now);
    }
    assert Observe(n, d, d', now).since == n.since;
    hide ThrottledScan, Observe;
  }

  lemma SyncTimed(d: Dsq, n: Notes, now: int)
    requires Base(d, n) && Timed(d, n, now)
    ensures Timed(Sync(d), Observe(n, d, Sync(d), now), now)
    ensures Overdue(d, n, now) ==> Overdue(Sync(d), Observe(n, d, Sync(d), now), now)
  {
  }
}
