/**
 The governor as cpufreq_lse.c runs it: loops over CPUs, per-CPU caches and policy fields written in
 place. Every method is proved against GovModel.
 */
module GovCode {
  import opened Arith
  import opened GovModel

  lemma TopTwoStep(s: seq<nat>, t1: nat, t2: nat, x: nat) returns (u1: nat, u2: nat)
    requires TopTwo(s, t1, t2)
    ensures if x >= t1 then u1 == x && u2 == t1 else u1 == t1 && u2 == Max(t2, x)
    ensures TopTwo(s + [x], u1, u2)
  {
    if x >= t1 {
      u1, u2 := x, t1;
    } else {
      u1, u2 := t1, Max(t2, x);
    }
    var r := s + [x];
    if |s| == 1 {
      assert TopTwoAt(r, u1, u2, if x >= t1 then 1 else 0, if x >= t1 then 0 else 1);
    } else if |s| > 1 {
      var i, j :| TopTwoAt(s, t1, t2, i, j);
      if x >= t1 {
        assert TopTwoAt(r, u1, u2, |s|, i);
      } else if x > t2 {
        assert TopTwoAt(r, u1, u2, i, |s|);
      } else {
        assert TopTwoAt(r, u1, u2, i, j);
      }
    }
  }

  /** lse_top2_avg_util: the mean of the two largest utilisations of the CPUs that have a window, or the
      only one. */
  method LseTop2AvgUtil(loads: seq<Load>, systemWindow: nat) returns (util: nat)
    ensures var utils := Utils(loads, systemWindow);
            if |utils| == 1 then util == utils[0] else IsTopTwoMean(utils, util)
  {
    var t1, t2, cnt := 0, 0, 0;
    var i := 0;
    while i < |loads|
      invariant 0 <= i <= |loads|
      invariant cnt == |Utils(loads[..i], systemWindow)|
      invariant TopTwo(Utils(loads[..i], systemWindow), t1, t2)
    {
      assert loads[..i + 1][..i] == loads[..i];
      var l := loads[i];
      var window := LoadWindow(l, systemWindow);
      if window != 0 {
        var u := UtilOf(l.prevSum, window);
        assert Utils(loads[..i + 1], systemWindow) == Utils(loads[..i], systemWindow) + [u];
        ghost var u1, u2 := TopTwoStep(Utils(loads[..i], systemWindow), t1, t2, u);
        if u >= t1 {
          t2 := t1;
          t1 := u;
        } else if u > t2 {
          t2 := u;
        }
        cnt := cnt + 1;
      } else {
        assert Utils(loads[..i], systemWindow) + [] == Utils(loads[..i], systemWindow);
      }
      i := i + 1;
    }
    assert loads[..|loads|] == loads;
    if cnt == 0 {
      return 0;
    }
    if cnt == 1 {
      return t1;
    }
    util := (t1 + t2) / 2;
  }

  // struct lse_gov_rq
  class LseGovRq {
    var lastTickNs: int
    var currUtil: nat
    var cachedThisSum: nat
    var cachedAggUtil: nat

    constructor ()
      ensures View() == Cache(0, 0, 0)
    {
      lastTickNs, currUtil, cachedThisSum, cachedAggUtil := 0, 0, 0, 0;
    }

    function View(): Cache
      reads this
    {
      Cache(lastTickNs, cachedThisSum, cachedAggUtil)
    }

    /** lse_gov_cluster_util: a hit keeps the aggregate and follows this CPU's sum; a miss traverses the
        cluster and averages its two largest sums (or takes the largest). */
    method ClusterUtil(sums: seq<nat>, thisCpu: nat, now: int, top2: bool, window: nat)
      returns (util: nat)
      requires thisCpu < |sums|
      modifies this`cachedThisSum, this`cachedAggUtil
      ensures LookedUp(old(View()), View(), sums, thisCpu, now, top2, window) && util == cachedAggUtil
    {
      var thisSum := sums[thisCpu];
      if cachedAggUtil != 0 && cachedThisSum != 0 && now - lastTickNs < UTIL_CACHE_STALE_NS {
        var diff := if thisSum > cachedThisSum then thisSum - cachedThisSum else cachedThisSum - thisSum;
        if diff * 20 < cachedThisSum {
          cachedThisSum := thisSum;
          return cachedAggUtil;
        }
      }
      var maxSum: nat := 0;
      if top2 {
        var a, b := TopTwoSums(sums);
        maxSum := (a + b) / 2;
        assert IsTopTwoMean(sums, maxSum);
      } else {
        maxSum := LargestSum(sums);
      }
      assert Traversal(sums, top2, window, UtilOf(maxSum, window));
      cachedThisSum := thisSum;
      cachedAggUtil := UtilOf(maxSum, window);
      util := cachedAggUtil;
    }
  }

  // The traversal of lse_gov_cluster_util in top-2 mode.
  method TopTwoSums(sums: seq<nat>) returns (top1: nat, top2: nat)
    ensures TopTwo(sums, top1, top2)
  {
    top1, top2 := 0, 0;
    var i := 0;
    while i < |sums|
      invariant 0 <= i <= |sums| && TopTwo(sums[..i], top1, top2)
    {
      assert sums[..i + 1] == sums[..i] + [sums[i]];
      ghost var u1, u2 := TopTwoStep(sums[..i], top1, top2, sums[i]);
      if sums[i] >= top1 {
        top2 := top1;
        top1 := sums[i];
      } else if sums[i] > top2 {
        top2 := sums[i];
      }
      i := i + 1;
    }
    assert sums[..|sums|] == sums;
  }

  // The traversal of lse_gov_cluster_util in maximum mode.
  method LargestSum(sums: seq<nat>) returns (m: nat)
    ensures IsMax(sums, m)
  {
    m := 0;
    var i := 0;
    while i < |sums|
      invariant 0 <= i <= |sums|
      invariant forall k :: 0 <= k < i ==> sums[k] <= m
      invariant m in sums[..i] || m == 0
    {
      if sums[i] > m {
        m := sums[i];
      }
      i := i + 1;
    }
    if m == 0 && sums != [] {
      assert sums[0] == 0;
    }
  }

  // struct lse_gov_policy over a cpufreq policy
  class LseGovPolicy {
    var policy: Policy
    var nextFreq: nat
    var lastAggUtil: nat
    var lastPowerPressure: nat
    var lastTargetLoadDyn: int
    var lastFreqCapApplied: nat

    // lse_gov_start
    constructor (policy: Policy)
      ensures this.policy == policy && nextFreq == 0
    {
      this.policy := policy;
      nextFreq, lastAggUtil, lastPowerPressure, lastTargetLoadDyn, lastFreqCapApplied := 0, 0, 0, 0, 0;
    }

    method DynamicTargetLoad(agg: nat) returns (tl: int)
      modifies this`lastPowerPressure
      ensures tl == TargetLoad(policy, agg)
      ensures lastPowerPressure == if policy.dynamicTarget then PowerPressure(policy, agg) else old(lastPowerPressure)
    {
      tl := if policy.targetBase != 0 then policy.targetBase else DEFAULT_TARGET_LOAD;
      tl := Clamp(tl, policy.targetMin, policy.targetMax);
      if !policy.dynamicTarget {
        return;
      }
      var pressure := PowerPressure(policy, agg);
      if pressure > 850 && tl + policy.targetStep <= policy.targetMax {
        tl := tl + policy.targetStep;
      } else if pressure < 450 && tl > policy.targetMin + policy.targetStep {
        tl := tl - policy.targetStep;
      }
      lastPowerPressure := pressure;
      tl := Clamp(tl, policy.targetMin, policy.targetMax);
    }

    method GetNextFreq(sum: nat) returns (next: nat)
      modifies this`lastPowerPressure, this`lastTargetLoadDyn, this`lastAggUtil
      ensures next == NextFreq(policy, sum)
      ensures lastAggUtil == UtilOf(sum, WindowNs(policy)) && lastTargetLoadDyn == TargetLoad(policy, lastAggUtil)
    {
      var freq := if policy.cur != 0 then policy.cur else policy.cpuMin;
      var agg := UtilOf(sum, WindowNs(policy));
      var tl := DynamicTargetLoad(agg);
      lastTargetLoadDyn := tl;
      lastAggUtil := agg;
      next := U32(freq * agg / Max(tl, 1));
      if next == 0 {
        next := policy.cpuMin;
      }
    }

    method SoftFreqClamp(target: nat) returns (f: nat)
      modifies this`lastFreqCapApplied
      ensures f == SoftClamp(policy, target) == lastFreqCapApplied
    {
      f := target;
      if policy.softMin >= 0 && policy.softMin > f {
        f := policy.softMin;
      }
      if policy.softMax >= 0 && policy.softMax < f {
        f := policy.softMax;
      }
      if policy.useCaps {
        if policy.capMax != 0 && f > policy.capMax {
          f := policy.capMax;
        }
        if policy.capMin != 0 && f < policy.capMin {
          f := policy.capMin;
        }
      }
      lastFreqCapApplied := f;
    }

    /** lse_gov_update_cpufreq: a changed request is stored and handed on; an unchanged one is not. */
    method UpdateCpufreq(sum: nat, resolve: nat -> nat) returns (handedOn: bool)
      modifies this`nextFreq, this`lastPowerPressure, this`lastTargetLoadDyn, this`lastAggUtil,
               this`lastFreqCapApplied
      ensures nextFreq == resolve(SoftClamp(policy, NextFreq(policy, sum)))
      ensures lastAggUtil == UtilOf(sum, WindowNs(policy)) && lastTargetLoadDyn == TargetLoad(policy, lastAggUtil)
      ensures handedOn <==> nextFreq != old(nextFreq)
    {
      var next := GetNextFreq(sum);
      next := SoftFreqClamp(next);
      next := resolve(next);
      if nextFreq == next {
        return false;
      }
      nextFreq := next;
      handedOn := true;
    }

    /** lse_gov_tick_update: past its rate limit the cluster's utilisation, boosted by queue urgency, drives the
        same formula from the current frequency. */
    method TickUpdate(grq: LseGovRq, sums: seq<nat>, thisCpu: nat, now: int, later: int, urgency: nat, top2: bool,
                      resolve: nat -> nat)
      returns (handedOn: bool)
      requires thisCpu < |sums|
      modifies grq, this`nextFreq, this`lastPowerPressure, this`lastTargetLoadDyn, this`lastAggUtil,
               this`lastFreqCapApplied
      ensures Ticked(old(grq.View()), grq.View(), GovTick(now, later, sums), thisCpu, top2, policy.systemWindow)
      ensures nextFreq == if RateLimited(old(grq.View()), GovTick(now, later, sums)) then old(nextFreq)
                          else resolve(SoftClamp(policy, Scaled(policy, policy.cur, Boosted(grq.cachedAggUtil, urgency))))
      ensures !RateLimited(old(grq.View()), GovTick(now, later, sums)) ==>
                && grq.currUtil == grq.cachedAggUtil && lastAggUtil == Boosted(grq.cachedAggUtil, urgency)
                && lastTargetLoadDyn == TargetLoad(policy, lastAggUtil)
      ensures handedOn <==> nextFreq != old(nextFreq)
    {
      if now - grq.lastTickNs < RATE_LIMIT_NS {
        return false;
      }
      grq.lastTickNs := now;
      var agg := grq.ClusterUtil(sums, thisCpu, later, top2, policy.systemWindow);
      grq.currUtil := agg;
      agg := Boosted(agg, urgency);
      var tl: int := StaticTarget(policy);
      if policy.dynamicTarget {
        tl := DynamicTargetLoad(agg);
      }
      var next := U32(policy.cur * agg / Max(tl, 1));
      if next == 0 {
        next := policy.cpuMin;
      }
      next := SoftFreqClamp(next);
      next := resolve(next);
      lastAggUtil := agg;
      lastTargetLoadDyn := tl;
      handedOn := nextFreq != next;
      nextFreq := next;
    }
  }
}
