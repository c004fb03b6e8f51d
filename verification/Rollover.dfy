/**
 The rollover election: every CPU that enters a new window tries once to move the global mark
 lse_run_rollover_lastq_ws from the window start it left to the one it entered; whoever succeeds
 queues the rollover work. Advancing the window and the compare-and-swap are separate steps, so any
 interleaving of CPUs is a run.
 */
module Rollover {

  // A CPU between its window advance and its compare-and-swap remembers the start it left.
  datatype Phase = Settled | Moved(left: int)

  datatype State = State(last: int, ws: seq<int>, phase: seq<Phase>)

  datatype Step =
    | Advance(cpu: nat, windows: nat)  // update_window_start crossing that many boundaries
    | Cas(cpu: nat)                    // atomic64_cmpxchg in lse_window_rollover_run_once

  datatype Win = Win(left: int, entered: int)

  predicate Enabled(s: State, a: Step) {
    && |s.ws| == |s.phase| && a.cpu < |s.ws|
    && match a
       case Advance(c, n) => s.phase[c].Settled? && n > 0
       case Cas(c) => s.phase[c].Moved?
  }

  predicate Wins(s: State, a: Step)
    requires Enabled(s, a)
  {
    a.Cas? && s.last == s.phase[a.cpu].left
  }

  function Next(s: State, window: int, a: Step): State
    requires Enabled(s, a)
  {
    match a
    case Advance(c, n) => s.(ws := s.ws[c := s.ws[c] + n * window], phase := s.phase[c := Moved(s.ws[c])])
    case Cas(c) => s.(last := if Wins(s, a) then s.ws[c] else s.last, phase := s.phase[c := Settled])
  }

  predicate Valid(s: State, window: int, run: seq<Step>)
    decreases |run|
  {
    run == [] || (Enabled(s, run[0]) && Valid(Next(s, window, run[0]), window, run[1..]))
  }

  function After(s: State, window: int, run: seq<Step>): State
    requires Valid(s, window, run)
    decreases |run|
  {
    if run == [] then s else After(Next(s, window, run[0]), window, run[1..])
  }

  // The successful exchanges of a run, in order.
  function Winners(s: State, window: int, run: seq<Step>): seq<Win>
    requires Valid(s, window, run)
    decreases |run|
  {
    if run == [] then []
    else
      (if Wins(s, run[0]) then [Win(s.last, s.ws[run[0].cpu])] else [])
      + Winners(Next(s, window, run[0]), window, run[1..])
  }

  // The window start a CPU has taken its turn for.
  function Committed(s: State, c: nat): int
    requires |s.ws| == |s.phase| && c < |s.ws|
  {
    if s.phase[c].Moved? then s.phase[c].left else s.ws[c]
  }

  // The state lse_scheduler_tick seeds: every CPU and the mark at the same instant.
  predicate Seeded(s: State, s0: int) {
    && |s.ws| == |s.phase| && |s.ws| > 0 && s.last == s0
    && forall c :: 0 <= c < |s.ws| ==> s.ws[c] == s0 && s.phase[c].Settled?
  }

  ghost predicate Inv(s: State) {
    && |s.ws| == |s.phase|
    && (forall c :: 0 <= c < |s.ws| && s.phase[c].Moved? ==> s.phase[c].left < s.ws[c])
    && (exists c: nat :: c < |s.ws| && Committed(s, c) == s.last)
  }

  lemma NextKeepsInv(s: State, window: int, a: Step)
    requires Inv(s) && Enabled(s, a) && window > 0
    ensures Inv(Next(s, window, a))
    ensures if Wins(s, a) then s.last < Next(s, window, a).last else Next(s, window, a).last == s.last
  {
    var s' := Next(s, window, a);
    var w: nat :| w < |s.ws| && Committed(s, w) == s.last;
    match a {
      case Advance(c, n) =>
        Positive(n, window);
        assert Committed(s', w) == s'.last;
      case Cas(c) =>
        if Wins(s, a) {
          assert Committed(s', c) == s'.last;
        } else {
          assert w != c;
          assert Committed(s', w) == s'.last;
        }
    }
  }

  lemma Positive(n: nat, window: int)
    requires window > 0
    ensures n > 0 ==> n * window > 0
  {
  }

  // Each exchange starts from the value the one before it stored.
  predicate Chain(wins: seq<Win>, start: int, end: int) {
    if wins == [] then start == end
    else wins[0].left == start < wins[0].entered && Chain(wins[1..], wins[0].entered, end)
  }

  /** Over every interleaving the successful exchanges form a chain from the seeded mark to the
      current one, and the mark is always a window start some CPU has taken its turn for. */
  lemma {:induction false} ElectionChain(s: State, window: int, run: seq<Step>)
    requires Inv(s) && window > 0 && Valid(s, window, run)
    ensures Chain(Winners(s, window, run), s.last, After(s, window, run).last)
    ensures Inv(After(s, window, run))
    decreases |run|
  {
    if run != [] {
      NextKeepsInv(s, window, run[0]);
      var rest := Winners(Next(s, window, run[0]), window, run[1..]);
      ElectionChain(Next(s, window, run[0]), window, run[1..]);
      if Wins(s, run[0]) {
        assert Winners(s, window, run)[1..] == rest;
      } else {
        assert Winners(s, window, run) == rest;
      }
    }
  }

  lemma {:induction false} ChainIncreases(wins: seq<Win>, start: int, end: int, j: nat)
    requires Chain(wins, start, end) && j < |wins|
    ensures start < wins[j].entered <= end && start <= wins[j].left
    ensures forall i :: 0 <= i < j ==> wins[i].entered <= wins[j].left < wins[j].entered
    decreases |wins|
  {
    var rest := wins[1..];
    if j == 0 {
      if rest != [] {
        ChainIncreases(rest, wins[0].entered, end, 0);
      }
    } else {
      ChainIncreases(rest, wins[0].entered, end, j - 1);
      forall i | 0 <= i < j
        ensures wins[i].entered <= wins[j].left < wins[j].entered
      {
        assert i > 0 ==> wins[i] == rest[i - 1];
      }
    }
  }

  /** No window start wins twice, in any run from the seeded state. */
  lemma EachWindowWinsOnce(s: State, s0: int, window: int, run: seq<Step>, i: nat, j: nat)
    requires Seeded(s, s0) && window > 0 && Valid(s, window, run)
    requires i < j < |Winners(s, window, run)|
    ensures Winners(s, window, run)[i].entered < Winners(s, window, run)[j].entered
  {
    assert Committed(s, 0) == s.last;
    ElectionChain(s, window, run);
    ChainIncreases(Winners(s, window, run), s.last, After(s, window, run).last, j);
  }

  /** The CPU whose turn the mark stands for wins its next exchange, unless another wins first. */
  lemma {:induction false} HolderForcesWin(s: State, window: int, run: seq<Step>, w: nat)
    requires Inv(s) && window > 0 && Valid(s, window, run)
    requires w < |s.ws| && Committed(s, w) == s.last && Cas(w) in run
    ensures Winners(s, window, run) != []
    decreases |run|
  {
    var a := run[0];
    if !Wins(s, a) {
      assert a != Cas(w);
      NextKeepsInv(s, window, a);
      assert Cas(w) in run[1..];
      HolderForcesWin(Next(s, window, a), window, run[1..], w);
    }
  }

  /** Progress: from any reachable state, once every CPU has completed one more exchange at least one of
      them has succeeded. */
  lemma EveryRoundHasWinner(s: State, window: int, run: seq<Step>)
    requires Inv(s) && window > 0 && Valid(s, window, run)
    requires forall c: nat :: c < |s.ws| ==> Cas(c) in run
    ensures Winners(s, window, run) != []
    ensures After(s, window, run).last > s.last
  {
    var w: nat :| w < |s.ws| && Committed(s, w) == s.last;
    HolderForcesWin(s, window, run, w);
    ElectionChain(s, window, run);
    ChainIncreases(Winners(s, window, run), s.last, After(s, window, run).last, 0);
  }
}
