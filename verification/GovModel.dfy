/**
 The frequency governor of cpufreq_lse.c on values: aggregation of CPU loads, the load-dependent
 target, the next frequency and its clamps. Divisions floor, as on C unsigned integers, and products
 that C computes in 32 bits are reduced to 32 bits.
 */
module GovModel {
  import opened Arith

  const DEFAULT_TARGET_LOAD := 90
  const UTIL_CACHE_STALE_NS := 16_000_000
  const RATE_LIMIT_NS := 400_000

  // cpufreq_policy, lse_gov_policy, its tunables and the global switches, as far as frequency depends on them
  datatype Policy = Policy(
    cur: nat,             // policy->cur
    cpuMin: nat,          // policy->cpuinfo.min_freq
    cpuMax: nat,          // policy->cpuinfo.max_freq
    targetBase: nat,
    targetMin: nat,
    targetMax: nat,
    targetStep: nat,
    windowNs: nat,        // cluster_window_ns
    capMax: nat,          // cluster_freq_cap_max, 0 when off
    capMin: nat,          // cluster_freq_cap_min, 0 when off
    softMax: int,         // soft_freq_max, negative when off
    softMin: int,         // soft_freq_min, negative when off
    useClusterWindow: bool,
    dynamicTarget: bool,
    useCaps: bool,
    systemWindow: nat)    // lse_sched_ravg_window

  // lse_get_policy_window_ns
  function WindowNs(p: Policy): nat {
    if !p.useClusterWindow || p.windowNs == 0 then p.systemWindow else p.windowNs
  }

  // ----- aggregation -----

  // Utilisation on the 0..1024 scale of a load over a window.
  function UtilOf(sum: nat, window: nat): nat {
    Min(sum * CAPACITY_SCALE / Max(window, 1), CAPACITY_SCALE)
  }

  // The CPU's utilisation in lse_top2_avg_util, if it has a window at all.
  datatype Load = Load(prevSum: nat, prevWindowSize: nat)

  function LoadWindow(l: Load, systemWindow: nat): nat {
    if l.prevWindowSize != 0 then l.prevWindowSize else systemWindow
  }

  function Utils(loads: seq<Load>, systemWindow: nat): seq<nat> {
    if loads == [] then []
    else
      var front, last := loads[..|loads| - 1], loads[|loads| - 1];
      Utils(front, systemWindow)
      + if LoadWindow(last, systemWindow) == 0 then [] else [UtilOf(last.prevSum, LoadWindow(last, systemWindow))]
  }

  // t1 and t2 are the two largest values, at two different places.
  ghost predicate TopTwo(s: seq<nat>, t1: nat, t2: nat) {
    if s == [] then t1 == 0 && t2 == 0
    else if |s| == 1 then t1 == s[0] && t2 == 0
    else exists i, j :: TopTwoAt(s, t1, t2, i, j)
  }

  ghost predicate TopTwoAt(s: seq<nat>, t1: nat, t2: nat, i: int, j: int) {
    && 0 <= i < |s| && 0 <= j < |s| && i != j && s[i] == t1 && s[j] == t2 && t2 <= t1
    && forall k :: 0 <= k < |s| && k != i ==> s[k] <= t2
  }

  // m is the mean of the two largest values.
  ghost predicate IsTopTwoMean(s: seq<nat>, m: nat) {
    exists t1: nat, t2: nat :: TopTwo(s, t1, t2) && m == (t1 + t2) / 2
  }

  predicate IsMax(s: seq<nat>, m: nat) {
    (forall k :: 0 <= k < |s| ==> s[k] <= m) && (m in s || (s == [] && m == 0))
  }

  // ----- target load -----

  // mult_frac(x, 1024, max) in unsigned int
  function MultFrac(x: nat, max: nat): nat
    requires max > 0
  {
    U32(U32(x / max * 1024) + U32(x % max * 1024) / max)
  }

  // lse_compute_power_pressure
  function PowerPressure(p: Policy, agg: nat): nat {
    var freq := if p.cpuMax == 0 then 0 else MultFrac(p.cur, p.cpuMax);
    Min(U32(freq + agg) / 2, 1024)
  }

  function Clamp(x: int, lo: int, hi: int): int { Min(Max(x, lo), hi) }

  function StaticTarget(p: Policy): nat {
    Clamp(if p.targetBase != 0 then p.targetBase else DEFAULT_TARGET_LOAD, p.targetMin, p.targetMax)
  }

  // lse_dynamic_target_load
  function TargetLoad(p: Policy, agg: nat): int {
    var tl := StaticTarget(p);
    if !p.dynamicTarget then tl
    else
      var pressure := PowerPressure(p, agg);
      Clamp(if pressure > 850 && tl + p.targetStep <= p.targetMax then tl + p.targetStep
            else if pressure < 450 && tl > p.targetMin + p.targetStep then tl - p.targetStep
            else tl,
            p.targetMin, p.targetMax)
  }

  // ----- next frequency -----

  // cur * util / target, or the hardware minimum when that is 0
  function Scaled(p: Policy, freq: nat, agg: nat): nat {
    var f := U32(freq * agg / Max(TargetLoad(p, agg), 1));
    if f == 0 then p.cpuMin else f
  }

  // get_next_freq with the legacy formula off
  function NextFreq(p: Policy, sum: nat): nat {
    Scaled(p, if p.cur != 0 then p.cur else p.cpuMin, UtilOf(sum, WindowNs(p)))
  }

  // soft_freq_clamp
  function SoftClamp(p: Policy, target: nat): nat {
    var a := if p.softMin >= 0 && p.softMin > target then p.softMin else target;
    var b := if p.softMax >= 0 && p.softMax < a then p.softMax else a;
    if !p.useCaps then b
    else
      var c := if p.capMax != 0 && b > p.capMax then p.capMax else b;
      if p.capMin != 0 && c < p.capMin then p.capMin else c
  }

  // The tick path: the aggregate is boosted by the queues' urgency first.
  function Boosted(agg: nat, urgency: nat): nat {
    Min(agg * (1024 + urgency) / 1024, CAPACITY_SCALE)
  }

  // ----- cached aggregate -----

  // struct lse_gov_rq
  datatype Cache = Cache(lastTickNs: int, thisSum: nat, aggUtil: nat)

  // The reuse test of lse_gov_cluster_util.
  predicate CacheHit(c: Cache, thisSum: nat, now: int) {
    && c.aggUtil != 0 && c.thisSum != 0 && now - c.lastTickNs < UTIL_CACHE_STALE_NS
    && (if thisSum > c.thisSum then thisSum - c.thisSum else c.thisSum - thisSum) * 20 < c.thisSum
  }

  // What a traversal of the cluster reports: the mean of its two largest sums, or the largest, as a utilisation.
  ghost predicate Traversal(sums: seq<nat>, top2: bool, window: nat, util: nat) {
    exists m: nat :: (if top2 then IsTopTwoMean(sums, m) else IsMax(sums, m)) && util == UtilOf(m, window)
  }

  // lse_gov_cluster_util: a hit keeps the aggregate and follows this CPU's sum, a miss traverses the cluster.
  ghost predicate LookedUp(c: Cache, c': Cache, sums: seq<nat>, thisCpu: nat, now: int, top2: bool, window: nat)
    requires thisCpu < |sums|
  {
    && c'.lastTickNs == c.lastTickNs && c'.thisSum == sums[thisCpu]
    && if CacheHit(c, sums[thisCpu], now) then c'.aggUtil == c.aggUtil else Traversal(sums, top2, window, c'.aggUtil)
  }

  // One call of lse_gov_tick_update: the clock it rate-limits on, the clock the cache reads, the cluster's sums.
  datatype GovTick = GovTick(now: int, later: int, sums: seq<nat>)

  predicate RateLimited(c: Cache, k: GovTick) { k.now - c.lastTickNs < RATE_LIMIT_NS }

  predicate Hits(c: Cache, k: GovTick, thisCpu: nat) {
    thisCpu < |k.sums| && !RateLimited(c, k) && CacheHit(c.(lastTickNs := k.now), k.sums[thisCpu], k.later)
  }

  predicate Misses(c: Cache, k: GovTick, thisCpu: nat) {
    thisCpu < |k.sums| && !RateLimited(c, k) && !CacheHit(c.(lastTickNs := k.now), k.sums[thisCpu], k.later)
  }

  // What such a call does to the CPU's cache: the time stamp is refreshed first.
  ghost predicate Ticked(c: Cache, c': Cache, k: GovTick, thisCpu: nat, top2: bool, window: nat) {
    && thisCpu < |k.sums|
    && if RateLimited(c, k) then c' == c
       else LookedUp(c.(lastTickNs := k.now), c', k.sums, thisCpu, k.later, top2, window)
  }
}
