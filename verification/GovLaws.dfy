/**
 Laws of the governor: what the top-2 aggregate is worth, what the round trip through a runnable sum
 loses, how far the cache can drift, and where the feedback loop through the current frequency ends.
 */
module GovLaws {
  import opened Arith
  import opened GovModel

  // ----- top-2 aggregate -----

  /** The top-2 pair is determined by the values: the largest, and the largest of the rest. */
  lemma TopTwoUnique(s: seq<nat>, a1: nat, a2: nat, b1: nat, b2: nat)
    requires TopTwo(s, a1, a2) && TopTwo(s, b1, b2)
    ensures a1 == b1 && a2 == b2
  {
    if |s| > 1 {
      var i, j :| TopTwoAt(s, a1, a2, i, j);
      var k, l :| TopTwoAt(s, b1, b2, k, l);
      assert s[i] <= b1 && s[k] <= a1;
      if i != k {
        assert s[i] <= b2 && s[k] <= a2;
      } else {
        assert s[j] <= b2 && s[l] <= a2;
      }
    }
  }

  /** The mean of the two largest values is one number. */
  lemma TopTwoMeanUnique(s: seq<nat>, m: nat, m': nat)
    requires IsTopTwoMean(s, m) && IsTopTwoMean(s, m')
    ensures m == m'
  {
    hide TopTwo;
    var t1: nat, t2: nat :| TopTwo(s, t1, t2) && m == (t1 + t2) / 2;
    var u1: nat, u2: nat :| TopTwo(s, u1, u2) && m' == (u1 + u2) / 2;
    TopTwoUnique(s, t1, t2, u1, u2);
  }

  /** It is at most the largest value and at least half of it. */
  lemma TopTwoMean(s: seq<nat>, m: nat)
    requires IsTopTwoMean(s, m)
    ensures exists top: nat :: IsMax(s, top) && top / 2 <= m <= top
  {
    hide TopTwo;
    var t1: nat, t2: nat :| TopTwo(s, t1, t2) && m == (t1 + t2) / 2;
    TopTwoHasMax(s, t1, t2);
  }

  lemma TopTwoHasMax(s: seq<nat>, t1: nat, t2: nat)
    requires TopTwo(s, t1, t2)
    ensures IsMax(s, t1) && t2 <= t1
  {
    if |s| > 1 {
      var i, j :| TopTwoAt(s, t1, t2, i, j);
      assert s[i] == t1;
      forall k | 0 <= k < |s|
        ensures s[k] <= t1
      {
        assert k != i ==> s[k] <= t2;
      }
    }
  }

  /** Without naming either value: twice the mean and one is at least the sum of any two values, and the mean is half
      the sum of some two, cut down. */
  lemma TopTwoMeanIs(s: seq<nat>, m: nat, i: nat, j: nat)
    requires IsTopTwoMean(s, m) && i < |s| && j < |s| && i != j
    ensures s[i] + s[j] <= 2 * m + 1
    ensures exists k, l :: 0 <= k < |s| && 0 <= l < |s| && k != l && 2 * m <= s[k] + s[l] <= 2 * m + 1
  {
    hide TopTwo;
    var t1: nat, t2: nat :| TopTwo(s, t1, t2) && m == (t1 + t2) / 2;
    TopTwoPair(s, t1, t2, i, j);
  }

  lemma TopTwoPair(s: seq<nat>, t1: nat, t2: nat, i: nat, j: nat)
    requires TopTwo(s, t1, t2) && i < |s| && j < |s| && i != j
    ensures s[i] + s[j] <= t1 + t2
    ensures exists k, l :: 0 <= k < |s| && 0 <= l < |s| && k != l && s[k] == t1 && s[l] == t2
  {
    var k, l :| TopTwoAt(s, t1, t2, k, l);
    assert (i != k ==> s[i] <= t2) && (j != k ==> s[j] <= t2);
    assert s[k] == t1 && s[l] == t2;
  }

  // ----- utilisation of a load -----

  /** A load that does not fill its window is worth its share of 1024, cut down; one that does is worth 1024. A window
      of 0 counts as 1 ns. */
  lemma UtilIsShare(sum: nat, window: nat)
    ensures window == 0 ==> UtilOf(sum, window) == UtilOf(sum, 1)
    ensures window > 0 ==> (UtilOf(sum, window) == 1024 <==> window <= sum)
    ensures sum < window ==> UtilOf(sum, window) * window <= 1024 * sum < UtilOf(sum, window) * window + window
  {
    if window > 0 {
      FullIff(sum, window);
      DivBounds(sum * CAPACITY_SCALE, window);
    }
  }

  /** The utilisations that are compared are those of the CPUs that have a window, each over its own previous window or,
      if it has none yet, over the system's. */
  lemma UtilsAre(loads: seq<Load>, l: Load, systemWindow: nat)
    ensures l.prevWindowSize > 0 ==>
              Utils(loads + [l], systemWindow) == Utils(loads, systemWindow) + [UtilOf(l.prevSum, l.prevWindowSize)]
    ensures l.prevWindowSize == 0 && systemWindow > 0 ==>
              Utils(loads + [l], systemWindow) == Utils(loads, systemWindow) + [UtilOf(l.prevSum, systemWindow)]
    ensures l.prevWindowSize == 0 && systemWindow == 0 ==> Utils(loads + [l], systemWindow) == Utils(loads, systemWindow)
    ensures Utils([], systemWindow) == []
  {
    assert (loads + [l])[..|loads + [l]| - 1] == loads;
    assert Utils(loads, systemWindow) + [] == Utils(loads, systemWindow);
  }

  /** The window a policy's loads are measured over: its own if that is in use and set, else the system's. */
  lemma PolicyWindow(p: Policy)
    ensures p.useClusterWindow && p.windowNs > 0 ==> WindowNs(p) == p.windowNs
    ensures !p.useClusterWindow || p.windowNs == 0 ==> WindowNs(p) == p.systemWindow
  {
  }

  // ----- round trip -----

  // lsegov_update_freq turns a utilisation back into a runnable sum.
  function SumOfUtil(util: nat, window: nat): nat { util * window / CAPACITY_SCALE }

  /** Turning a utilisation into a sum and back loses at most one for any window of at least 1024 ns, and
      nothing exactly when the sum came out without a remainder. */
  lemma UtilRoundTrip(util: nat, window: nat)
    requires util <= CAPACITY_SCALE <= window
    ensures UtilOf(SumOfUtil(util, window), window)
         == if util * window % CAPACITY_SCALE == 0 then util else util - 1
  {
    var x := util * window;
    var s, r := x / CAPACITY_SCALE, x % CAPACITY_SCALE;
    assert s * CAPACITY_SCALE == x - r;
    if r == 0 {
      DivUnique(s * CAPACITY_SCALE, window, util);
    } else {
      assert (util - 1) * window == x - window;
      DivUnique(s * CAPACITY_SCALE, window, util - 1);
    }
  }

  /** At the default window of 8 ms every odd utilisation loses one on the way. */
  lemma OddUtilsLoseOne(util: nat)
    requires util <= CAPACITY_SCALE
    ensures UtilOf(SumOfUtil(util, 8_000_000), 8_000_000) == util - util % 2
  {
    UtilRoundTrip(util, 8_000_000);
    assert util * 8_000_000 == (util * 7812) * 1024 + util * 512;
    if util % 2 == 0 {
      assert util * 512 == (util / 2) * 1024;
    } else {
      assert util * 512 == (util / 2) * 1024 + 512;
    }
  }

  // ----- one-CPU clusters -----

  // Where the two paths see the same utilisation of a CPU with this sum, all windows being the same.
  predicate PathsAgree(sum: nat, window: nat) {
    if window <= sum then window <= sum / 2
    else if window < CAPACITY_SCALE then sum == 0 || (sum <= 2 && sum * CAPACITY_SCALE % window != 0)
    else
      var u := UtilOf(sum, window);
      u == 0 || (u == 1 && window % 1024 != 0) || (u == 2 && window % 512 != 0 && UtilOf(sum / 2, window) == 1)
  }

  /** The two paths disagree on a one-CPU cluster: the rollover path finds that CPU's utilisation and passes it on
      through the round trip, the tick path finds the utilisation of half its sum. What they work with is
      the same for the idlest CPUs, where the round trip loses what halving loses, and where half the sum
      already fills the window; before the round trip it is the same only at utilisation 0 or a full half. */
  lemma SingleCpuHalved(sum: nat, window: nat, t1: nat, t2: nat, u1: nat, u2: nat)
    requires window > 0
    requires TopTwo(Utils([Load(sum, window)], window), u1, u2) && TopTwo([sum], t1, t2)
    ensures |Utils([Load(sum, window)], window)| == 1 && u1 == UtilOf(sum, window)
    ensures UtilOf((t1 + t2) / 2, window) == UtilOf(sum / 2, window)
    ensures sum <= window ==> 2 * UtilOf(sum / 2, window) <= UtilOf(sum, window)
    ensures UtilOf((t1 + t2) / 2, window) == u1 <==> UtilOf(sum, window) == 0 || window <= sum / 2
    ensures UtilOf((t1 + t2) / 2, window) == UtilOf(SumOfUtil(u1, window), window) <==> PathsAgree(sum, window)
  {
    var l := [Load(sum, window)];
    assert l[..0] == [] && Utils(l[..0], window) == [];
    assert Utils(l, window) == [] + [UtilOf(sum, window)];
    HalfUtil(sum, window);
    hide UtilOf, Utils;
    AgreeIff(sum, window);
  }

  /** The tick path never sees more than half of what the CPU's sum is worth, short of saturation. */
  lemma HalfUtil(sum: nat, window: nat)
    requires window > 0
    ensures sum <= window ==> 2 * UtilOf(sum / 2, window) <= UtilOf(sum, window)
    ensures UtilOf(sum / 2, window) == UtilOf(sum, window) <==> UtilOf(sum, window) == 0 || window <= sum / 2
  {
    if sum <= window {
      HalfDiv(sum / 2 * CAPACITY_SCALE, sum * CAPACITY_SCALE, window);
      DivMonotone(sum * CAPACITY_SCALE, CAPACITY_SCALE * window, window);
      DivUnique(CAPACITY_SCALE * window, window, CAPACITY_SCALE);
    } else {
      FullIff(sum, window);
      FullIff(sum / 2, window);
    }
    ZeroHalf(sum, window);
  }

  lemma AgreeIff(sum: nat, window: nat)
    requires window > 0
    ensures UtilOf(sum / 2, window) == UtilOf(SumOfUtil(UtilOf(sum, window), window), window) <==> PathsAgree(sum, window)
  {
    hide UtilOf, SumOfUtil;
    if window <= sum {
      AgreeFull(sum, window);
    } else if window < CAPACITY_SCALE {
      SmallWindowRoundTrip(sum, window);
      if sum > 0 {
        SmallWindowInjective(sum / 2, if sum * CAPACITY_SCALE % window == 0 then sum else sum - 1, window);
      }
    } else {
      AgreeLarge(sum, window);
    }
  }

  lemma AgreeFull(sum: nat, window: nat)
    requires 0 < window <= sum
    ensures UtilOf(sum / 2, window) == UtilOf(SumOfUtil(UtilOf(sum, window), window), window) <==> window <= sum / 2
  {
    FullIff(sum, window);
    FullIff(sum / 2, window);
    FullIff(window, window);
    hide UtilOf;
    DivUnique(CAPACITY_SCALE * window, CAPACITY_SCALE, window);
  }

  lemma AgreeLarge(sum: nat, window: nat)
    requires sum < window && CAPACITY_SCALE <= window
    ensures UtilOf(sum / 2, window) == UtilOf(SumOfUtil(UtilOf(sum, window), window), window) <==> PathsAgree(sum, window)
  {
    HalfUtil(sum, window);
    var u := UtilOf(sum, window);
    assert 0 <= u <= CAPACITY_SCALE;
    hide UtilOf, SumOfUtil;
    UtilRoundTrip(u, window);
    SmallMultiples(window);
  }

  lemma SmallMultiples(window: nat)
    ensures 1 * window % CAPACITY_SCALE == window % 1024
    ensures 2 * window % CAPACITY_SCALE == 0 <==> window % 512 == 0
  {
  }

  /** In a window of less than 1024 ns each nanosecond is worth more than one unit of utilisation: the round trip
      gives the sum back or one less. */
  lemma SmallWindowRoundTrip(sum: nat, window: nat)
    requires sum < window < CAPACITY_SCALE
    ensures SumOfUtil(UtilOf(sum, window), window) == if sum * CAPACITY_SCALE % window == 0 then sum else sum - 1
  {
    var x := sum * CAPACITY_SCALE;
    DivMonotone(x, CAPACITY_SCALE * window, window);
    DivUnique(CAPACITY_SCALE * window, window, CAPACITY_SCALE);
    DivBounds(x, window);
    assert UtilOf(sum, window) == x / window;
    assert x == (x / window) * window + x % window;
    DivUnique((x / window) * window, CAPACITY_SCALE, if x % window == 0 then sum else sum - 1);
  }

  lemma SmallWindowInjective(a: nat, b: nat, window: nat)
    requires a < window < CAPACITY_SCALE && b < window && 0 < window
    ensures UtilOf(a, window) == UtilOf(b, window) <==> a == b
  {
    if a < b {
      SmallWindowStrict(a, b, window);
    } else if b < a {
      SmallWindowStrict(b, a, window);
    }
  }

  lemma SmallWindowStrict(a: nat, b: nat, window: nat)
    requires a < b < window < CAPACITY_SCALE
    ensures UtilOf(a, window) < UtilOf(b, window)
  {
    var x, y := a * CAPACITY_SCALE, b * CAPACITY_SCALE;
    DivMonotone(y, CAPACITY_SCALE * window, window);
    DivUnique(CAPACITY_SCALE * window, window, CAPACITY_SCALE);
    DivBounds(x, window);
    DivMonotone((x / window) * window + window, y, window);
    DivUnique((x / window) * window + window, window, x / window + 1);
  }

  lemma FullIff(sum: nat, window: nat)
    requires window > 0
    ensures UtilOf(sum, window) == CAPACITY_SCALE <==> window <= sum
  {
    var q := sum * CAPACITY_SCALE / window;
    DivBounds(sum * CAPACITY_SCALE, window);
    assert (q - CAPACITY_SCALE) * window == q * window - CAPACITY_SCALE * window;
    MulSign(q - CAPACITY_SCALE, window);
  }

  lemma ZeroHalf(sum: nat, window: nat)
    requires window > 0
    ensures UtilOf(sum, window) == 0 ==> UtilOf(sum / 2, window) == 0
  {
    DivMonotone(sum / 2 * CAPACITY_SCALE, sum * CAPACITY_SCALE, window);
    DivMonotone(0, sum / 2 * CAPACITY_SCALE, window);
  }

  lemma HalfDiv(a: nat, b: nat, w: nat)
    requires w > 0 && 2 * a <= b
    ensures 2 * (a / w) <= b / w
  {
    DivBounds(a, w);
    DivBounds(b, w);
    var q, r := a / w, b / w;
    assert (2 * q - r) * w == 2 * (q * w) - r * w;
    MulSign(2 * q - r, w);
  }

  // ----- cache drift -----

  function Pow(b: nat, k: nat): nat {
    if k == 0 then 1 else b * Pow(b, k - 1)
  }

  /** The reuse test in one line: the aggregate and the sum are known, the stamp is less than 16 ms old, and the sum is
      strictly between 19/20 and 21/20 of the one before. */
  lemma HitIff(c: Cache, thisSum: nat, now: int)
    ensures CacheHit(c, thisSum, now) <==>
              && c.aggUtil > 0 && c.thisSum > 0 && now < c.lastTickNs + 16_000_000
              && 19 * c.thisSum < 20 * thisSum < 21 * c.thisSum
  {
  }

  /** A tick less than 0.4 ms after the last one that counted leaves the cache alone, and any later one stamps it. */
  lemma TickStamps(c: Cache, c': Cache, k: GovTick, thisCpu: nat, top2: bool, window: nat)
    requires Ticked(c, c', k, thisCpu, top2, window)
    ensures k.now < c.lastTickNs + 400_000 ==> c' == c
    ensures k.now >= c.lastTickNs + 400_000 ==> c'.lastTickNs == k.now && c'.thisSum == k.sums[thisCpu]
  {
  }

  // caches are this CPU's cache before each of the ticks and after the last.
  ghost predicate CacheRun(caches: seq<Cache>, ticks: seq<GovTick>, thisCpu: nat, top2: bool, window: nat) {
    && |caches| == |ticks| + 1
    && forall i :: 0 <= i < |ticks| ==> Ticked(caches[i], caches[i + 1], ticks[i], thisCpu, top2, window)
  }

  // The hits among the first k ticks.
  function HitCount(caches: seq<Cache>, ticks: seq<GovTick>, thisCpu: nat, k: nat): nat
    requires k <= |ticks| <= |caches|
  {
    if k == 0 then 0
    else HitCount(caches, ticks, thisCpu, k - 1) + if Hits(caches[k - 1], ticks[k - 1], thisCpu) then 1 else 0
  }

  // After h hits the cached sum lies strictly between (19/20)^h and (21/20)^h of what it was.
  predicate Drifted(s0: nat, s: nat, h: nat) {
    if h == 0 then s == s0 else Pow(19, h) * s0 < Pow(20, h) * s < Pow(21, h) * s0
  }

  /** A stretch of ticks none of which traverses the cluster. */
  lemma {:induction false} NoTraversal(caches: seq<Cache>, ticks: seq<GovTick>, thisCpu: nat, top2: bool, window: nat, k: nat)
    requires CacheRun(caches, ticks, thisCpu, top2, window) && k <= |ticks|
    requires forall i :: 0 <= i < k ==> !Misses(caches[i], ticks[i], thisCpu)
    ensures caches[k].aggUtil == caches[0].aggUtil
    ensures Drifted(caches[0].thisSum, caches[k].thisSum, HitCount(caches, ticks, thisCpu, k))
  {
    if k > 0 {
      NoTraversal(caches, ticks, thisCpu, top2, window, k - 1);
      assert Ticked(caches[k - 1], caches[k], ticks[k - 1], thisCpu, top2, window);
      if Hits(caches[k - 1], ticks[k - 1], thisCpu) {
        HitDrifts(caches[0].thisSum, caches[k - 1].thisSum, caches[k].thisSum, HitCount(caches, ticks, thisCpu, k - 1));
      }
    }
  }

  lemma HitDrifts(a: nat, s: nat, s': nat, h: nat)
    requires Drifted(a, s, h) && s > 0 && (if s' > s then s' - s else s - s') * 20 < s
    ensures Drifted(a, s', h + 1)
  {
    var p19, p20, p21 := Pow(19, h), Pow(20, h), Pow(21, h);
    PowPositive(20, h);
    assert Pow(19, h + 1) == 19 * p19 && Pow(20, h + 1) == 20 * p20 && Pow(21, h + 1) == 21 * p21;
    assert p19 * a <= p20 * s <= p21 * a;
    hide Pow;
    DriftStep(p19, p20, p21, a, s, s');
  }

  /** Cache drift over a run of ticks: from a traversal on, for as long as no other tick traverses, whatever the
      ticks' times, every tick reports exactly that traversal's utilisation, while this CPU's sum may
      drift from the traversal's by less than a twentieth per hit, compounded. */
  lemma CacheDrift(caches: seq<Cache>, ticks: seq<GovTick>, thisCpu: nat, top2: bool, window: nat)
    requires CacheRun(caches, ticks, thisCpu, top2, window) && ticks != []
    requires Misses(caches[0], ticks[0], thisCpu)
    requires forall i :: 0 < i < |ticks| ==> !Misses(caches[i], ticks[i], thisCpu)
    ensures Traversal(ticks[0].sums, top2, window, caches[|ticks|].aggUtil)
    ensures Drifted(ticks[0].sums[thisCpu], caches[|ticks|].thisSum,
                    HitCount(caches[1..], ticks[1..], thisCpu, |ticks| - 1))
  {
    assert Ticked(caches[0], caches[1], ticks[0], thisCpu, top2, window);
    var rest, later := caches[1..], ticks[1..];
    forall i | 0 <= i < |later|
      ensures Ticked(rest[i], rest[i + 1], later[i], thisCpu, top2, window)
    {
      assert Ticked(caches[i + 1], caches[i + 2], ticks[i + 1], thisCpu, top2, window);
    }
    NoTraversal(rest, later, thisCpu, top2, window, |later|);
  }

  lemma {:induction false} PowPositive(b: nat, k: nat)
    requires b > 0
    ensures Pow(b, k) > 0
  {
    if k > 0 {
      PowPositive(b, k - 1);
      MulSign(b, Pow(b, k - 1));
    }
  }

  lemma DriftStep(p19: nat, p20: nat, p21: nat, a: nat, s: nat, s': nat)
    requires p20 > 0
    requires p19 * a <= p20 * s <= p21 * a
    requires 19 * s < 20 * s' < 21 * s
    ensures (19 * p19) * a < (20 * p20) * s' < (21 * p21) * a
  {
    assert (20 * p20) * s' == p20 * (20 * s');
    assert p20 * (19 * s) == 19 * (p20 * s);
    assert p20 * (21 * s) == 21 * (p20 * s);
    MulStrict(19 * s, 20 * s', p20);
    MulStrict(20 * s', 21 * s, p20);
    assert (19 * p19) * a == 19 * (p19 * a);
    assert (21 * p21) * a == 21 * (p21 * a);
  }

  lemma MulStrict(x: nat, y: nat, k: nat)
    requires x < y && k > 0
    ensures k * x < k * y
  {
  }

  // The n-th tick and the cache after it in a run where both CPUs of a cluster grow busier by 1 ns a tick.
  function GrowingTick(start: nat, n: nat): GovTick {
    GovTick((n + 1) * UTIL_CACHE_STALE_NS, (n + 1) * UTIL_CACHE_STALE_NS, [start + n, start + n])
  }

  function GrowingCache(start: nat, window: nat, n: nat): Cache {
    if n == 0 then Cache(0, 0, 0) else Cache(n * UTIL_CACHE_STALE_NS, start + n - 1, UtilOf(start, window))
  }

  /** Both modes of aggregation report a sum shared by all CPUs. */
  lemma EqualSums(s: nat, top2: bool, window: nat)
    ensures Traversal([s, s], top2, window, UtilOf(s, window))
  {
    assert TopTwoAt([s, s], s, s, 0, 1);
    assert TopTwo([s, s], s, s) && (s + s) / 2 == s;
    assert IsTopTwoMean([s, s], s) && IsMax([s, s], s);
  }

  lemma GrowingTicked(start: nat, target: nat, window: nat, top2: bool, n: nat)
    requires 21 <= start && start + n <= target <= window <= start * CAPACITY_SCALE
    ensures Ticked(GrowingCache(start, window, n), GrowingCache(start, window, n + 1), GrowingTick(start, n), 0, top2, window)
    ensures if n == 0 then Misses(GrowingCache(start, window, n), GrowingTick(start, n), 0)
            else Hits(GrowingCache(start, window, n), GrowingTick(start, n), 0)
  {
    EqualSums(start + n, top2, window);
    DivMonotone(window, start * CAPACITY_SCALE, window);
    DivUnique(window, window, 1);
  }

  /** Nothing ends the drift: a run of ticks, each two windows after the one before, all but the first of them hits,
      with no sum ever above the window, takes the load from any sum that is reported as non-zero to any
      larger one; the last tick still reports the first one's utilisation. */
  lemma StaleAggregate(start: nat, target: nat, window: nat, top2: bool)
    returns (caches: seq<Cache>, ticks: seq<GovTick>)
    requires 21 <= start <= target <= window <= start * CAPACITY_SCALE
    ensures CacheRun(caches, ticks, 0, top2, window) && |ticks| == target - start + 1
    ensures Misses(caches[0], ticks[0], 0) && forall i :: 0 < i < |ticks| ==> Hits(caches[i], ticks[i], 0)
    ensures forall i :: 0 < i < |ticks| ==> ticks[i].now - ticks[i - 1].now == UTIL_CACHE_STALE_NS
    ensures forall i, j :: 0 <= i < |ticks| && 0 <= j < |ticks[i].sums| ==> ticks[i].sums[j] <= window
    ensures caches[|ticks|].aggUtil == UtilOf(start, window)
    ensures ticks[|ticks| - 1].sums == [target, target]
    ensures Traversal(ticks[|ticks| - 1].sums, top2, window, UtilOf(target, window))
  {
    var n := target - start + 1;
    ticks := seq(n, i requires 0 <= i => GrowingTick(start, i));
    caches := seq(n + 1, i requires 0 <= i => GrowingCache(start, window, i));
    forall i: nat | i < n
      ensures Ticked(caches[i], caches[i + 1], ticks[i], 0, top2, window)
      ensures if i == 0 then Misses(caches[i], ticks[i], 0) else Hits(caches[i], ticks[i], 0)
    {
      GrowingTicked(start, target, window, top2, i);
    }
    EqualSums(target, top2, window);
  }

  /** So the governor can see a cluster at 1 out of 1024 while both its CPUs are busy all the time. */
  lemma StaleByWholeRange(window: nat, top2: bool) returns (caches: seq<Cache>, ticks: seq<GovTick>)
    requires 21 * CAPACITY_SCALE <= window
    ensures CacheRun(caches, ticks, 0, top2, window) && ticks != [] && Misses(caches[0], ticks[0], 0)
    ensures forall i :: 0 < i < |ticks| ==> Hits(caches[i], ticks[i], 0)
    ensures caches[|ticks|].aggUtil == 1
    ensures ticks[|ticks| - 1].sums == [window, window]
    ensures Traversal(ticks[|ticks| - 1].sums, top2, window, 1024)
  {
    var start := (window + CAPACITY_SCALE - 1) / CAPACITY_SCALE;
    DivUnique(start * CAPACITY_SCALE, window, 1);
    DivUnique(window * CAPACITY_SCALE, window, CAPACITY_SCALE);
    caches, ticks := StaleAggregate(start, window, window, top2);
  }

  // ----- 32-bit pressure -----

  /** The pressure term is the true 1024 * cur / max for every current frequency exactly when the maximum is
      at most 4194304 kHz; above that its 32-bit product wraps for some frequency. */
  lemma PressureExact(max: nat)
    requires 0 < max < 0x1_0000_0000
    ensures (forall cur: nat :: cur <= max ==> MultFrac(cur, max) == cur * 1024 / max) <==> max <= 4_194_304
  {
    if max <= 4_194_304 {
      forall cur: nat | cur <= max
        ensures MultFrac(cur, max) == cur * 1024 / max
      {
        PressureNoWrap(cur, max);
      }
    } else {
      PressureWraps(max);
    }
  }

  lemma PressureNoWrap(cur: nat, max: nat)
    requires 0 < cur <= max <= 4_194_304 || (cur == 0 && 0 < max <= 4_194_304)
    ensures MultFrac(cur, max) == cur * 1024 / max
  {
    if cur == max {
      DivUnique(cur, max, 1);
      DivUnique(cur * 1024, max, 1024);
      DivUnique(0, max, 0);
    } else {
      DivUnique(cur, max, 0);
      DivBounds(cur * 1024, max);
      DivMonotone(cur * 1024, 1024 * max, max);
      DivUnique(1024 * max, max, 1024);
      DivMonotone(0, cur * 1024, max);
      DivUnique(0, max, 0);
    }
  }

  lemma PressureWraps(max: nat)
    requires 4_194_304 < max < 0x1_0000_0000
    ensures MultFrac(4_194_304, max) != 4_194_304 * 1024 / max
  {
    DivUnique(4_194_304, max, 0);
    DivUnique(0, max, 0);
    DivBounds(0x1_0000_0000, max);
    MulSign(0x1_0000_0000 / max, max);
  }

  /** The pressure is the mean, cut down, of the frequency's share of 1024 and the utilisation. */
  lemma PressureIsMean(p: Policy, agg: nat)
    requires p.cur <= p.cpuMax <= 4_194_304 && agg <= 1024
    ensures var share := if p.cpuMax == 0 then 0 else p.cur * 1024 / p.cpuMax;
            2 * PowerPressure(p, agg) <= share + agg <= 2 * PowerPressure(p, agg) + 1
  {
    if p.cpuMax > 0 {
      PressureNoWrap(p.cur, p.cpuMax);
      PressureAtMost(p.cur, p.cpuMax);
    }
    hide MultFrac;
  }

  // ----- clamps -----

  /** soft_freq_clamp is monotone and idempotent, for limits set or disabled in any combination. */
  lemma SoftClampLaws(p: Policy, x: nat, y: nat)
    ensures x <= y ==> SoftClamp(p, x) <= SoftClamp(p, y)
    ensures SoftClamp(p, SoftClamp(p, x)) == SoftClamp(p, x)
  {
  }

  // Which limits are on.
  predicate HasCapMin(p: Policy) { p.useCaps && p.capMin != 0 }
  predicate HasCapMax(p: Policy) { p.useCaps && p.capMax != 0 }

  predicate WithinLimits(p: Policy, x: nat) {
    && (p.softMin >= 0 ==> p.softMin <= x) && (p.softMax >= 0 ==> x <= p.softMax)
    && (HasCapMax(p) ==> x <= p.capMax) && (HasCapMin(p) ==> p.capMin <= x)
  }

  /** When limits conflict the minimum cap wins over the maximum cap, that over the soft maximum, and that
      over the soft minimum; a target inside all of them is left alone. */
  lemma SoftClampPrecedence(p: Policy, x: nat)
    ensures HasCapMin(p) ==> SoftClamp(p, x) >= p.capMin
    ensures HasCapMax(p) && (HasCapMin(p) ==> p.capMin <= p.capMax) ==> SoftClamp(p, x) <= p.capMax
    ensures p.softMax >= 0 && (HasCapMin(p) ==> p.capMin <= p.softMax) ==> SoftClamp(p, x) <= p.softMax
    ensures p.softMin >= 0 && (p.softMax >= 0 ==> p.softMin <= p.softMax) && (HasCapMax(p) ==> p.softMin <= p.capMax) ==>
              SoftClamp(p, x) >= p.softMin
    ensures WithinLimits(p, x) ==> SoftClamp(p, x) == x
    ensures SoftClamp(p, x) in {x as int, p.softMin, p.softMax, p.capMin as int, p.capMax as int}
    ensures HasCapMin(p) && HasCapMax(p) && p.capMax <= p.capMin ==> SoftClamp(p, x) == p.capMin
    ensures HasCapMin(p) && 0 <= p.softMax <= p.capMin ==> SoftClamp(p, x) == p.capMin
    ensures HasCapMax(p) && p.softMin >= p.capMax && !HasCapMin(p) && (p.softMax < 0 || p.capMax <= p.softMax) ==>
              SoftClamp(p, x) == p.capMax
    ensures 0 <= p.softMax <= p.softMin && !p.useCaps ==> SoftClamp(p, x) == p.softMax
  {
  }

  // ----- target load -----

  /** Wherever the pressure is exact, a higher utilisation never lowers the target load, and the target stays
      within its limits and within one step of the static one. */
  lemma TargetLoadMonotone(p: Policy, a: nat, b: nat)
    requires p.targetMin <= p.targetMax && p.cur <= p.cpuMax <= 4_194_304
    requires a <= b <= CAPACITY_SCALE
    ensures p.targetMin <= TargetLoad(p, a) <= TargetLoad(p, b) <= p.targetMax
    ensures StaticTarget(p) - p.targetStep <= TargetLoad(p, a) <= StaticTarget(p) + p.targetStep
  {
    PressureMonotone(p, a, b);
    hide PowerPressure;
  }

  lemma PressureMonotone(p: Policy, a: nat, b: nat)
    requires p.cur <= p.cpuMax <= 4_194_304 && a <= b <= CAPACITY_SCALE
    ensures PowerPressure(p, a) <= PowerPressure(p, b)
  {
    hide MultFrac, U32, Min;
    if p.cpuMax > 0 {
      PressureAtMost(p.cur, p.cpuMax);
      HalfMonotone(MultFrac(p.cur, p.cpuMax), a, b);
    } else {
      HalfMonotone(0, a, b);
    }
  }

  lemma HalfMonotone(f: nat, a: nat, b: nat)
    requires f <= 1024 && a <= b <= CAPACITY_SCALE
    ensures Min(U32(f + a) / 2, 1024) <= Min(U32(f + b) / 2, 1024)
  {
  }

  lemma PressureAtMost(cur: nat, max: nat)
    requires cur <= max && 0 < max <= 4_194_304
    ensures MultFrac(cur, max) <= 1024
  {
    PressureNoWrap(cur, max);
    hide MultFrac;
    DivMonotone(cur * 1024, 1024 * max, max);
    DivUnique(1024 * max, max, 1024);
  }

  // ----- the feedback loop -----

  // What lse_gov_start sets, with the soft limits off.
  predicate Defaults(p: Policy) {
    && p.targetBase == 90 && p.targetMin == 70 && p.targetMax == 95 && p.targetStep == 2 && p.dynamicTarget
    && p.softMax < 0 && p.softMin < 0 && p.useCaps
    && p.capMax == p.cpuMax && p.capMin == p.cpuMin
    && 92 <= p.capMin <= p.capMax && p.capMax * 12 < 0x1_0000_0000
    && p.capMin <= p.cur <= p.capMax
  }

  // The request for a constant utilisation, the driver taking any frequency.
  function Request(p: Policy, agg: nat): nat {
    SoftClamp(p, Scaled(p, if p.cur != 0 then p.cur else p.cpuMin, agg))
  }

  // The policy after n updates, each followed by the driver adopting the request.
  function Iterate(p: Policy, agg: nat, n: nat): Policy {
    if n == 0 then p
    else
      var q := Iterate(p, agg, n - 1);
      q.(cur := Request(q, agg))
  }

  lemma TargetsUsed(p: Policy, agg: nat)
    requires Defaults(p)
    ensures TargetLoad(p, agg) in {88, 90, 92}
  {
  }

  /** The target in use: the base, or 90 if there is none, kept within the limits, and with the dynamic target one step
      higher at a pressure above 850 and one lower below 450, where that step stays inside the limits. */
  lemma TargetIs(p: Policy, agg: nat)
    requires p.targetMin <= p.targetMax
    ensures var base := if p.targetBase == 0 then 90 else p.targetBase;
            && (p.targetMin <= base <= p.targetMax ==> StaticTarget(p) == base)
            && (base < p.targetMin ==> StaticTarget(p) == p.targetMin)
            && (p.targetMax < base ==> StaticTarget(p) == p.targetMax)
    ensures var t, x := StaticTarget(p), PowerPressure(p, agg);
            && (!p.dynamicTarget || 450 <= x <= 850 ==> TargetLoad(p, agg) == t)
            && (p.dynamicTarget && x > 850 ==>
                  TargetLoad(p, agg) == if t + p.targetStep <= p.targetMax then t + p.targetStep else t)
            && (p.dynamicTarget && x < 450 ==>
                  TargetLoad(p, agg) == if t - p.targetStep > p.targetMin then t - p.targetStep else t)
  {
    hide PowerPressure;
  }

  /** With the defaults: 92 above a pressure of 850, 88 below 450, else 90. */
  lemma DefaultTargets(p: Policy, agg: nat)
    requires Defaults(p)
    ensures TargetLoad(p, agg) == 92 <==> PowerPressure(p, agg) > 850
    ensures TargetLoad(p, agg) == 88 <==> PowerPressure(p, agg) < 450
    ensures TargetLoad(p, agg) in {88, 90, 92}
  {
    hide PowerPressure;
  }

  /** The scaled frequency is frequency times utilisation over the target, cut down, where 32 bits hold it; the hardware
      minimum stands in for 0. */
  lemma ScaledIsQuotient(p: Policy, freq: nat, agg: nat)
    requires p.targetMin <= p.targetMax && 0 < TargetLoad(p, agg) && freq * agg < 0x1_0000_0000 * TargetLoad(p, agg)
    ensures var f, target := Scaled(p, freq, agg), TargetLoad(p, agg);
            if freq * agg < target then f == p.cpuMin else f * target <= freq * agg < f * target + target
  {
    var target := TargetLoad(p, agg);
    hide TargetLoad;
    DivBounds(freq * agg, target);
    QuotientBelow(freq * agg, target, 0x1_0000_0000);
    NoWrap(freq * agg / target);
    if freq * agg < target {
      DivUnique(freq * agg, target, 0);
    } else {
      DivMonotone(target, freq * agg, target);
      DivUnique(target, target, 1);
    }
  }

  /** The next frequency is such a quotient of the current frequency, or of the hardware minimum while there is none,
      and of what the sum is worth in the policy's window. */
  lemma NextFreqIs(p: Policy, sum: nat)
    requires var freq, util := if p.cur > 0 then p.cur else p.cpuMin, UtilOf(sum, WindowNs(p));
             && p.targetMin <= p.targetMax && 0 < TargetLoad(p, util)
             && freq * util < 0x1_0000_0000 * TargetLoad(p, util)
    ensures var freq, util := if p.cur > 0 then p.cur else p.cpuMin, UtilOf(sum, WindowNs(p));
            var f, target := NextFreq(p, sum), TargetLoad(p, util);
            if freq * util < target then f == p.cpuMin else f * target <= freq * util < f * target + target
  {
    hide TargetLoad, Scaled;
    ScaledIsQuotient(p, if p.cur > 0 then p.cur else p.cpuMin, UtilOf(sum, WindowNs(p)));
  }

  // ----- queue urgency -----

  /** The boost multiplies the utilisation by one plus the urgency's share of 1024, cut down and up to 1024. It leaves a
      utilisation alone at urgency 0 and grows with the urgency. */
  lemma BoostIs(agg: nat, u: nat, v: nat)
    requires u <= v
    ensures agg <= 1024 ==> Boosted(agg, 0) == agg
    ensures agg * (1024 + u) < 1024 * 1024 ==> 1024 * Boosted(agg, u) <= agg * (1024 + u) < 1024 * Boosted(agg, u) + 1024
    ensures agg * (1024 + u) >= 1024 * 1024 ==> Boosted(agg, u) == 1024
    ensures Boosted(agg, u) <= Boosted(agg, v) <= 1024
  {
    MulMonotone(1024 + u, 1024 + v, agg);
    DivMonotone(agg * (1024 + u), agg * (1024 + v), 1024);
    if agg * (1024 + u) >= 1024 * 1024 {
      DivMonotone(1024 * 1024, agg * (1024 + u), 1024);
    }
  }

  /** What the boost is for: with the defaults a utilisation that lets the frequency fall makes it climb, strictly and
      all the way to the maximum cap, once the urgency lifts it to 91 out of 1024. */
  lemma UrgencyClimbs(p: Policy, agg: nat, u: nat, n: nat)
    requires Defaults(p) && agg <= 87 && 91 * 1024 <= agg * (1024 + u)
    ensures p.cur > p.capMin ==> SoftClamp(p, Scaled(p, p.cur, Boosted(agg, 0))) < p.cur
    ensures p.cur < p.capMax ==> SoftClamp(p, Scaled(p, p.cur, Boosted(agg, u))) > p.cur
    ensures Iterate(p, Boosted(agg, u), n).cur >= Min(p.capMax, p.cur + n)
  {
    BoostIs(agg, 0, u);
    BoostIs(agg, u, u);
    var b := Boosted(agg, u);
    assert 91 <= b <= 1024;
    hide Boosted;
    RampsUp(p, b, 0);
    RampsUp(p, b, n);
    RampsDown(p, agg, 0);
  }

  /** For instance 53 out of 1024 falls, and climbs while all three queues that can time out have. */
  lemma ThreeTimeoutsTurnIt(p: Policy)
    requires Defaults(p) && p.capMin < p.cur < p.capMax
    ensures SoftClamp(p, Scaled(p, p.cur, Boosted(53, 0))) < p.cur < SoftClamp(p, Scaled(p, p.cur, Boosted(53, 768)))
  {
    UrgencyClimbs(p, 53, 768, 0);
  }

  /** Between the caps the request moves up, stays or moves down exactly as the utilisation (out of 1024) is
      above, equal to or below the target load (88, 90 or 92); it never leaves the caps. */
  lemma RequestDirection(p: Policy, agg: nat)
    requires Defaults(p) && agg <= 1024
    ensures p.capMin <= Request(p, agg) <= p.capMax
    ensures p.cur < p.capMax ==> (Request(p, agg) > p.cur <==> agg > TargetLoad(p, agg))
    ensures p.capMin < p.cur ==> (Request(p, agg) < p.cur <==> agg < TargetLoad(p, agg))
    ensures p.cur == p.capMax && agg >= TargetLoad(p, agg) ==> Request(p, agg) == p.capMax
    ensures p.cur == p.capMin && agg <= TargetLoad(p, agg) ==> Request(p, agg) == p.capMin
  {
    TargetsUsed(p, agg);
    var tl := TargetLoad(p, agg);
    RequestIs(p, agg);
    ScaledDirection(p.cur, agg, tl);
    hide TargetLoad, Request;
    var f := p.cur * agg / tl;
  }

  /** With the defaults the request is the scaled frequency, kept within the caps. */
  lemma RequestIs(p: Policy, agg: nat)
    requires Defaults(p) && agg <= 1024
    ensures TargetLoad(p, agg) in {88, 90, 92}
    ensures Request(p, agg) == Clamp(p.cur * agg / TargetLoad(p, agg), p.capMin, p.capMax)
  {
    TargetsUsed(p, agg);
    var tl := TargetLoad(p, agg);
    hide TargetLoad, SoftClamp, Scaled;
    var q := p.cur * agg / tl;
    ScaledIs(p, agg, tl);
    ScaledFits(p.cur, agg, tl);
    ClampDirection(p, if q == 0 then p.cpuMin else q);
  }

  lemma ScaledIs(p: Policy, agg: nat, tl: int)
    requires Defaults(p) && agg <= 1024 && tl == TargetLoad(p, agg) && tl in {88, 90, 92}
    ensures Scaled(p, p.cur, agg) == if p.cur * agg / tl == 0 then p.cpuMin else p.cur * agg / tl
  {
    hide TargetLoad;
    ScaledFits(p.cur, agg, tl);
    NoWrap(p.cur * agg / tl);
    hide U32;
  }

  lemma NoWrap(x: int)
    requires 0 <= x < 0x1_0000_0000
    ensures U32(x) == x
  {
  }

  lemma ClampDirection(p: Policy, f: nat)
    requires Defaults(p)
    ensures SoftClamp(p, f) == Clamp(f, p.capMin, p.capMax)
  {
  }

  lemma ScaledFits(cur: nat, agg: nat, tl: int)
    requires agg <= 1024 && tl in {88, 90, 92}
    ensures 0 <= cur * agg / tl <= cur * 12
  {
    MulMonotone(agg, 12 * tl, cur);
    assert cur * (12 * tl) == (cur * 12) * tl;
    DivMonotone(cur * agg, (cur * 12) * tl, tl);
    DivUnique((cur * 12) * tl, tl, cur * 12);
  }

  lemma ScaledDirection(cur: nat, agg: nat, tl: int)
    requires cur >= 92 && tl in {88, 90, 92}
    ensures cur * agg / tl > cur <==> agg > tl
    ensures cur * agg / tl < cur <==> agg < tl
  {
    var x := agg * cur;
    assert x == cur * agg;
    ProductDirection(agg, tl, cur);
    QuotientDirection(x, cur, tl);
  }

  lemma ProductDirection(agg: nat, tl: int, cur: nat)
    requires cur > 0
    ensures agg > tl ==> agg * cur >= tl * cur + cur
    ensures agg == tl ==> agg * cur == tl * cur
    ensures agg < tl ==> agg * cur <= tl * cur - cur
  {
    assert (agg - tl) * cur == agg * cur - tl * cur;
    MulSign(agg - tl, cur);
  }

  lemma QuotientDirection(x: int, cur: nat, tl: int)
    requires cur >= 92 && tl in {88, 90, 92}
    ensures x >= tl * cur + cur ==> x / tl > cur
    ensures x == tl * cur ==> x / tl == cur
    ensures x <= tl * cur - cur ==> x / tl < cur
  {
  }

  lemma {:induction false} IterateDefaults(p: Policy, agg: nat, n: nat)
    requires Defaults(p) && agg <= 1024
    ensures Defaults(Iterate(p, agg, n)) && Iterate(p, agg, n).capMax == p.capMax
    ensures Iterate(p, agg, n).capMin == p.capMin
  {
    if n > 0 {
      IterateDefaults(p, agg, n - 1);
      RequestDirection(Iterate(p, agg, n - 1), agg);
    }
  }

  /** A constant utilisation of 91 or more out of 1024 drives the frequency strictly up, step by step, to the
      maximum cap, and holds it there, whatever the changing target load does. */
  lemma {:induction false} RampsUp(p: Policy, agg: nat, n: nat)
    requires Defaults(p) && 91 <= agg <= 1024
    ensures var q := Iterate(p, agg, n);
            if q.cur < p.capMax then Request(q, agg) > q.cur else Request(q, agg) == q.cur == p.capMax
    ensures Iterate(p, agg, n).cur >= Min(p.capMax, p.cur + n)
  {
    hide Request, TargetLoad;
    IterateDefaults(p, agg, n);
    var q := Iterate(p, agg, n);
    TargetsUsed(q, agg);
    LowUtilTarget(q, agg);
    RequestDirection(q, agg);
    if n > 0 {
      RampsUp(p, agg, n - 1);
      IterateDefaults(p, agg, n - 1);
      RequestDirection(Iterate(p, agg, n - 1), agg);
    }
  }

  /** A constant utilisation of 87 or less drives it strictly down to the minimum cap, and holds it there. */
  lemma {:induction false} RampsDown(p: Policy, agg: nat, n: nat)
    requires Defaults(p) && agg <= 87
    ensures var q := Iterate(p, agg, n);
            if q.cur > p.capMin then Request(q, agg) < q.cur else Request(q, agg) == q.cur == p.capMin
    ensures Iterate(p, agg, n).cur <= Max(p.capMin, p.cur - n)
  {
    hide Request, TargetLoad;
    IterateDefaults(p, agg, n);
    var q := Iterate(p, agg, n);
    TargetsUsed(q, agg);
    RequestDirection(q, agg);
    if n > 0 {
      RampsDown(p, agg, n - 1);
      IterateDefaults(p, agg, n - 1);
      RequestDirection(Iterate(p, agg, n - 1), agg);
    }
  }

  /** At a utilisation of 92 or less the pressure is never high, so the target is 90, or 88 while the pressure is
      low. */
  lemma LowUtilTarget(p: Policy, agg: nat)
    requires Defaults(p) && agg <= 1024
    ensures agg <= 92 ==> TargetLoad(p, agg) == if PowerPressure(p, agg) < 450 then 88 else 90
  {
    if agg <= 92 {
      LowPressure(p, agg);
    }
    hide PowerPressure;
  }

  lemma LowPressure(p: Policy, agg: nat)
    requires Defaults(p) && agg <= 92
    ensures PowerPressure(p, agg) <= 558
  {
    hide MultFrac, U32;
    MultFracAtMost(p.cur, p.cpuMax);
    NoWrap(MultFrac(p.cur, p.cpuMax) + agg);
  }

  /** 32-bit wrap-around or not, the frequency's share of the pressure is at most 1024, which is its value at
      the maximum frequency. */
  lemma MultFracAtMost(cur: nat, max: nat)
    requires cur <= max && 0 < max < 0x1_0000_0000
    ensures MultFrac(cur, max) <= 1024 && MultFrac(max, max) == 1024
  {
    DivUnique(max, max, 1);
    DivUnique(0, max, 0);
    if cur < max {
      DivUnique(cur, max, 0);
      U32Below(cur * 1024);
      QuotientBelow(U32(cur * 1024), max, 1024);
      NoWrap(U32(cur * 1024) / max);
    }
  }

  lemma U32Below(x: nat)
    ensures 0 <= U32(x) <= x
  {
  }

  lemma QuotientBelow(x: nat, max: nat, k: nat)
    requires 0 < max && x < k * max
    ensures 0 <= x / max < k
  {
    DivBounds(x, max);
    assert (k - x / max) * max == k * max - (x / max) * max;
    MulSign(k - x / max, max);
  }

  /** Where the loop rests: at the caps for a utilisation outside 88..90; below the pressure threshold at 88 and
      above it at 90; at 89 nowhere but at a minimum cap above the threshold. */
  lemma RestsIff(p: Policy, agg: nat)
    requires Defaults(p) && agg <= 1024
    ensures Request(p, agg) == p.cur <==>
              if agg <= 87 then p.cur == p.capMin
              else if agg == 88 then PowerPressure(p, agg) < 450 || p.cur == p.capMin
              else if agg == 89 then PowerPressure(p, agg) >= 450 && p.cur == p.capMin
              else if agg == 90 then PowerPressure(p, agg) >= 450
              else p.cur == p.capMax
  {
    RequestDirection(p, agg);
    TargetsUsed(p, agg);
    LowUtilTarget(p, agg);
    if p.cur == p.capMax {
      TopPressure(p, agg);
    }
    hide Request, TargetLoad, PowerPressure;
  }

  lemma TopPressure(p: Policy, agg: nat)
    requires Defaults(p) && p.cur == p.capMax && agg <= 1024
    ensures PowerPressure(p, agg) >= 450
  {
    MultFracAtMost(p.cur, p.cpuMax);
    hide MultFrac;
  }

  /** So a constant utilisation of 88 sinks until the pressure is low and one of 90 climbs until it is not: within
      as many steps as there are frequencies the loop rests for good. */
  lemma {:induction false} Settles(p: Policy, agg: nat, n: nat)
    requires Defaults(p) && agg in {88, 90}
    ensures var q := Iterate(p, agg, n);
            Request(q, agg) == q.cur || (if agg == 88 then q.cur <= p.cur - n else q.cur >= p.cur + n)
    ensures n >= p.capMax - p.capMin ==> Request(Iterate(p, agg, n), agg) == Iterate(p, agg, n).cur
  {
    hide Request, TargetLoad, PowerPressure;
    IterateDefaults(p, agg, n);
    if n > 0 {
      Settles(p, agg, n - 1);
      IterateDefaults(p, agg, n - 1);
      OneWay(Iterate(p, agg, n - 1), agg);
      var o := Iterate(p, agg, n - 1);
      assert o.(cur := o.cur) == o;
    }
    var q := Iterate(p, agg, n);
    RestsIff(q, agg);
    if q.cur == q.capMax {
      TopPressure(q, agg);
    }
  }

  /** At 88 the request never rises, at 90 it never falls. */
  lemma OneWay(p: Policy, agg: nat)
    requires Defaults(p) && agg in {88, 90}
    ensures Request(p, agg) == p.cur || (if agg == 88 then Request(p, agg) < p.cur else Request(p, agg) > p.cur)
  {
    hide Request, TargetLoad, PowerPressure;
    RequestDirection(p, agg);
    LowUtilTarget(p, agg);
    RestsIff(p, agg);
  }

  /** And one of 89 never rests, unless the pressure stays high even at the minimum cap: below the threshold it
      climbs, above it falls. */
  lemma NeverRests(p: Policy, n: nat)
    requires Defaults(p) && PowerPressure(p.(cur := p.capMin), 89) < 450
    ensures Request(Iterate(p, 89, n), 89) != Iterate(p, 89, n).cur
    ensures Request(Iterate(p, 89, n), 89) > Iterate(p, 89, n).cur <==> PowerPressure(Iterate(p, 89, n), 89) < 450
  {
    hide Request, TargetLoad, PowerPressure;
    IterateDefaults(p, 89, n);
    IterateCurOnly(p, 89, n);
    var q := Iterate(p, 89, n);
    RestsIff(q, 89);
    RequestDirection(q, 89);
    LowUtilTarget(q, 89);
    assert q.cur == p.capMin ==> q == p.(cur := p.capMin);
    if q.cur == q.capMax {
      TopPressure(q, 89);
    }
  }

  lemma {:induction false} IterateCurOnly(p: Policy, agg: nat, n: nat)
    ensures Iterate(p, agg, n) == p.(cur := Iterate(p, agg, n).cur)
  {
    if n > 0 {
      IterateCurOnly(p, agg, n - 1);
    }
  }
}
