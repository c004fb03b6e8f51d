/**
 The rollover election as the code runs it: the window advance and the compare-and-swap of the tracker are
 the two steps of the protocol in Rollover, so what is proved there of every interleaving is said of them.
 */
module WaltElection {
  import opened Arith
  import opened WaltModel
  import Rollover
  import WaltCode

  // The protocol's state that these records show, given which CPUs still have their turn to take.
  ghost function StateOf(cpus: seq<WaltCode.LseRq>, last: WaltCode.Atomic, phase: seq<Rollover.Phase>): Rollover.State
    reads cpus, last
  {
    Rollover.State(last.value, seq(|cpus|, c reads cpus requires 0 <= c < |cpus| => cpus[c].windowStart), phase)
  }

  predicate Distinct(cpus: seq<WaltCode.LseRq>) {
    forall c, d :: 0 <= c < d < |cpus| ==> cpus[c] != cpus[d]
  }

  /** lse_window_rollover_run_once of a CPU whose window has moved is the protocol's exchange: it queues the
      rollover work iff the exchange succeeds. */
  method TakeTurn(cpus: seq<WaltCode.LseRq>, last: WaltCode.Atomic, phase: seq<Rollover.Phase>, c: nat, window: int)
    returns (queued: bool)
    requires Distinct(cpus) && |phase| == |cpus| && c < |cpus|
    requires phase[c].Moved? && phase[c].left != cpus[c].windowStart
    modifies last
    ensures StateOf(cpus, last, phase[c := Rollover.Settled])
         == Rollover.Next(old(StateOf(cpus, last, phase)), window, Rollover.Cas(c))
    ensures queued <==> Rollover.Wins(old(StateOf(cpus, last, phase)), Rollover.Cas(c))
  {
    queued := WaltCode.WindowRolloverRunOnce(phase[c].left, cpus[c], last);
  }

  /** update_window_start, with a clock that does not run backwards, is the protocol's advance by the whole windows
      it crosses, or no step at all if it stays in its window. */
  method MoveWindow(cpus: seq<WaltCode.LseRq>, last: WaltCode.Atomic, phase: seq<Rollover.Phase>, c: nat, clock: int,
                    window: int)
    returns (left: int, ghost n: nat)
    requires Distinct(cpus) && |phase| == |cpus| && c < |cpus| && phase[c].Settled? && window > 0
    requires cpus[c].latestClock <= clock && cpus[c].windowStart <= clock
    modifies cpus[c]
    ensures left == old(cpus[c].windowStart)
    ensures if n == 0 then StateOf(cpus, last, phase) == old(StateOf(cpus, last, phase))
            else StateOf(cpus, last, phase[c := Rollover.Moved(left)])
                 == Rollover.Next(old(StateOf(cpus, last, phase)), window, Rollover.Advance(c, n))
    ensures cpus[c].windowStart <= clock < cpus[c].windowStart + window
    ensures n > 0 <==> left != cpus[c].windowStart
  {
    ghost var rq := cpus[c].View();
    n := WindowStartAdvance(rq, clock, window);
    left := cpus[c].UpdateWindowStart(clock, window);
    MulSign(n, window);
    assert cpus[c].windowStart == left + n * window;
    assert StateOf(cpus, last, phase).ws == old(StateOf(cpus, last, phase)).ws[c := left + n * window];
  }
}
