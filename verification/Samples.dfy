/** Facts about the five-sample history: pushing, run-length pushes, maxima and averages. */
module Samples {
  import opened Arith
  import opened WaltModel

  function Zeros(): (r: seq<int>)
    ensures |r| == HIST_SIZE
  {
    Repeat(0, HIST_SIZE)
  }

  predicate AllWithin(s: seq<int>, hi: int) {
    forall i :: 0 <= i < |s| ==> 0 <= s[i] <= hi
  }

  /** Dropping old samples early or late makes no difference. */
  lemma LastNAbsorbs(a: seq<int>, b: seq<int>, n: nat)
    ensures LastN(LastN(a, n) + b, n) == LastN(a + b, n)
  {
  }

  lemma RepeatSplit(v: int, m: nat, n: nat)
    ensures Repeat(v, m + n) == Repeat(v, m) + Repeat(v, n)
  {
  }

  lemma {:induction false} MaxOfIsMax(s: seq<int>, hi: int)
    requires AllWithin(s, hi) && 0 <= hi
    ensures 0 <= MaxOf(s) <= hi
    ensures forall i :: 0 <= i < |s| ==> s[i] <= MaxOf(s)
    ensures s != [] ==> MaxOf(s) in s
  {
    if s != [] {
      var front := s[..|s| - 1];
      MaxOfIsMax(front, hi);
      assert s == front + [s[|s| - 1]];
      if front == [] {
        assert MaxOf(front) == 0;
      }
    }
  }

  lemma {:induction false} SumOfWithin(s: seq<int>, hi: int)
    requires AllWithin(s, hi)
    ensures 0 <= SumOf(s) <= |s| * hi
  {
    if s != [] {
      SumOfWithin(s[..|s| - 1], hi);
      assert |s| * hi == (|s| - 1) * hi + hi;
    }
  }

  lemma {:induction false} SumOfAppend(a: seq<int>, b: seq<int>)
    ensures SumOf(a + b) == SumOf(a) + SumOf(b)
  {
    if b == [] {
      assert a + b == a;
    } else {
      SumOfAppend(a, b[..|b| - 1]);
      assert (a + b)[..|a + b| - 1] == a + b[..|b| - 1];
    }
  }

  lemma {:induction false} MaxOfAppend(a: seq<int>, b: seq<int>)
    ensures MaxOf(a + b) == Max(MaxOf(a), MaxOf(b))
  {
    if b == [] {
      assert a + b == a;
      MaxOfNonNegative(a);
    } else {
      MaxOfAppend(a, b[..|b| - 1]);
      assert (a + b)[..|a + b| - 1] == a + b[..|b| - 1];
    }
  }

  lemma MaxOfNonNegative(s: seq<int>)
    ensures 0 <= MaxOf(s)
  {
  }

  /** Every statistics policy stays within the largest sample, and the default policy
      dominates both the average and the most recent sample. */
  lemma DemandWithinMax(policy: int, runtime: int, samples: seq<int>, hi: int)
    requires |samples| == HIST_SIZE && AllWithin(samples, hi) && runtime in samples
    ensures 0 <= Demand(policy, runtime, samples) <= MaxOf(samples) <= hi
    ensures Demand(0, runtime, samples) <= Demand(2, runtime, samples)
    ensures Demand(3, runtime, samples) <= Demand(2, runtime, samples) <= Demand(1, runtime, samples)
  {
    var top := MaxOf(samples);
    assert 0 <= hi;
    MaxOfIsMax(samples, hi);
    assert AllWithin(samples, top);
    SumOfWithin(samples, top);
  }

  // d is what the policy promises of a ring read oldest first: 0 the newest sample, 1 the largest, 3 the average,
  // anything else the larger of the average and the newest.
  predicate IsStatistic(policy: int, d: int, s: seq<int>)
    requires |s| == 5
  {
    var total := s[0] + s[1] + s[2] + s[3] + s[4];
    if policy == 0 then d == s[4]
    else if policy == 1 then d in s && forall i :: 0 <= i < 5 ==> s[i] <= d
    else if policy == 3 then 5 * d <= total < 5 * d + 5
    else s[4] <= d && total < 5 * d + 5 && (d == s[4] || 5 * d <= total)
  }

  /** Each policy's demand is its statistic of the ring, whose last entry is the newest sample. */
  lemma DemandIsStatistic(policy: int, samples: seq<int>, hi: int)
    requires |samples| == 5 && AllWithin(samples, hi)
    ensures IsStatistic(policy, Demand(policy, samples[4], samples), samples)
  {
    assert 0 <= samples[0] <= hi;
    MaxOfIsMax(samples, hi);
    SumOfFive(samples);
  }

  lemma SumOfFive(s: seq<int>)
    requires |s| == 5
    ensures SumOf(s) == s[0] + s[1] + s[2] + s[3] + s[4]
  {
    assert s[..4][..3] == s[..3] && s[..3][..2] == s[..2] && s[..2][..1] == s[..1] && s[..1][..0] == [];
    assert SumOf(s[..1]) == s[0] && SumOf(s[..2]) == s[0] + s[1];
    assert SumOf(s[..3]) == s[0] + s[1] + s[2];
  }
}
