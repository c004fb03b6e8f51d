/**
 The governor's slow path as the code runs it: an update that is handed on queues the work, the worker thread
 takes it off, reads next_freq under the lock and calls the driver. Each method is one step of the protocol in
 GovHandoff, so what is proved there of every interleaving is said of this code.
 */
module GovWorker {
  import opened GovModel
  import GovCode
  import GovHandoff

  // The kthread work of one policy and the frequency its driver was last given.
  class Kthread {
    var pending: bool
    var worker: GovHandoff.Worker
    var driver: nat

    // lse_gov_start, whatever the driver runs at
    constructor (freq: nat)
      ensures !pending && worker.Asleep? && driver == freq
    {
      pending, worker, driver := false, GovHandoff.Asleep, freq;
    }

    function State(lg: GovCode.LseGovPolicy): GovHandoff.State
      reads this, lg
    {
      GovHandoff.State(lg.nextFreq, pending, worker, driver)
    }

    // kthread_queue_work: nothing happens if the work is queued already
    method QueueWork()
      modifies this`pending
      ensures pending
    {
      if !pending {
        pending := true;
      }
    }

    /** lse_gov_update_cpufreq without fast switching is one update of the protocol. */
    method UpdateCpufreq(lg: GovCode.LseGovPolicy, sum: nat, resolve: nat -> nat)
      modifies this`pending, lg
      ensures State(lg)
           == GovHandoff.Next(old(State(lg)), GovHandoff.Update(resolve(SoftClamp(lg.policy, NextFreq(lg.policy, sum)))))
    {
      var handedOn := lg.UpdateCpufreq(sum, resolve);
      if handedOn {
        QueueWork();
      }
    }

    /** lse_gov_tick_update without fast switching is one update too, or none at all if it is rate-limited. */
    method TickUpdate(lg: GovCode.LseGovPolicy, grq: GovCode.LseGovRq, sums: seq<nat>, thisCpu: nat, now: int, later: int,
                      urgency: nat, top2: bool, resolve: nat -> nat)
      requires thisCpu < |sums|
      modifies this`pending, lg, grq
      ensures State(lg) == if RateLimited(old(grq.View()), GovTick(now, later, sums)) then old(State(lg))
                           else GovHandoff.Next(old(State(lg)), GovHandoff.Update(lg.nextFreq))
    {
      var handedOn := lg.TickUpdate(grq, sums, thisCpu, now, later, urgency, top2, resolve);
      if handedOn {
        QueueWork();
      }
    }

    // kthread_worker_fn takes the work off its list before running it.
    method Take(lg: GovCode.LseGovPolicy)
      requires GovHandoff.Enabled(State(lg), GovHandoff.Take)
      modifies this
      ensures State(lg) == GovHandoff.Next(old(State(lg)), GovHandoff.Take)
    {
      pending := false;
      worker := GovHandoff.Started;
    }

    // lse_gov_work under update_lock
    method ReadNext(lg: GovCode.LseGovPolicy)
      requires GovHandoff.Enabled(State(lg), GovHandoff.ReadFreq)
      modifies this`worker
      ensures State(lg) == GovHandoff.Next(old(State(lg)), GovHandoff.ReadFreq)
    {
      var freq := lg.nextFreq;
      worker := GovHandoff.Read(freq);
    }

    // lse_gov_work under work_lock
    method Drive(lg: GovCode.LseGovPolicy)
      requires GovHandoff.Enabled(State(lg), GovHandoff.Drive)
      modifies this`worker, this`driver
      ensures State(lg) == GovHandoff.Next(old(State(lg)), GovHandoff.Drive)
    {
      driver := worker.freq;
      worker := GovHandoff.Asleep;
    }

    /** lse_gov_work, run to its end with no update in between, gives the driver the stored request. */
    method LseGovWork(lg: GovCode.LseGovPolicy)
      requires pending && worker.Asleep?
      modifies this
      ensures !pending && worker.Asleep? && driver == lg.nextFreq == old(lg.nextFreq)
    {
      Take(lg);
      ReadNext(lg);
      Drive(lg);
    }
  }
}
