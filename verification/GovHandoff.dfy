/**
 The slow path of the governor: updaters store next_freq and queue the work under update_lock; the
 worker clears the pending mark, then reads next_freq under the lock, then calls the driver. Every
 interleaving of updaters and the worker is a run.
 */
module GovHandoff {

  // Where the worker thread is: asleep, inside lse_gov_work before the read, or holding what it read.
  datatype Worker = Asleep | Started | Read(freq: nat)

  // driver is the last frequency given to __cpufreq_driver_target.
  datatype State = State(nextFreq: nat, pending: bool, worker: Worker, driver: nat)

  datatype Step =
    | Update(freq: nat)  // one locked update: no-op if the request is unchanged
    | Take               // the worker dequeues the work
    | ReadFreq           // the locked read in lse_gov_work
    | Drive              // __cpufreq_driver_target

  predicate Enabled(s: State, a: Step) {
    match a
    case Update(_) => true
    case Take => s.worker.Asleep? && s.pending
    case ReadFreq => s.worker.Started?
    case Drive => s.worker.Read?
  }

  function Next(s: State, a: Step): State
    requires Enabled(s, a)
  {
    match a
    case Update(f) => if s.nextFreq == f then s else s.(nextFreq := f, pending := true)
    case Take => s.(pending := false, worker := Started)
    case ReadFreq => s.(worker := Read(s.nextFreq))
    case Drive => s.(worker := Asleep, driver := s.worker.freq)
  }

  predicate Valid(s: State, run: seq<Step>)
    decreases |run|
  {
    run == [] || (Enabled(s, run[0]) && Valid(Next(s, run[0]), run[1..]))
  }

  function After(s: State, run: seq<Step>): State
    requires Valid(s, run)
    decreases |run|
  {
    if run == [] then s else After(Next(s, run[0]), run[1..])
  }

  // lse_gov_start: nothing requested, nothing queued; the driver has any frequency.
  predicate Initial(s: State) {
    s.nextFreq == 0 && !s.pending && s.worker.Asleep?
  }

  // A request is queued, or about to be read, or read and still current, or driven, or there is none.
  predicate Inv(s: State) {
    || s.pending
    || s.worker.Started?
    || s.worker == Read(s.nextFreq)
    || (s.worker.Asleep? && (s.nextFreq == 0 || s.driver == s.nextFreq))
  }

  lemma NextKeepsInv(s: State, a: Step)
    requires Inv(s) && Enabled(s, a)
    ensures Inv(Next(s, a))
  {
  }

  lemma {:induction false} RunKeepsInv(s: State, run: seq<Step>)
    requires Inv(s) && Valid(s, run)
    ensures Inv(After(s, run))
    decreases |run|
  {
    if run != [] {
      NextKeepsInv(s, run[0]);
      RunKeepsInv(Next(s, run[0]), run[1..]);
    }
  }

  /** No lost request: whenever no work is queued or running and a frequency has been requested, the driver
      has been given exactly the latest one. */
  lemma NoLostRequest(s: State, run: seq<Step>)
    requires Initial(s) && Valid(s, run)
    requires !After(s, run).pending && After(s, run).worker.Asleep? && After(s, run).nextFreq != 0
    ensures After(s, run).driver == After(s, run).nextFreq
  {
    RunKeepsInv(s, run);
  }

  // Steps the worker still has to make when no further update arrives.
  function WorkLeft(s: State): nat {
    (if s.pending then 3 else 0) + match s.worker case Asleep => 0 case Started => 2 case Read(_) => 1
  }

  predicate WorkerStep(a: Step) { !a.Update? }

  /** The worker alone always gets there: from any state it can move while work is left, each of its
      steps lowers the work left, so it comes to rest after at most five. */
  lemma WorkerDrains(s: State, a: Step)
    ensures WorkLeft(s) <= 5
    ensures WorkLeft(s) > 0 <==> exists b :: WorkerStep(b) && Enabled(s, b)
    ensures WorkerStep(a) && Enabled(s, a) ==>
              WorkLeft(Next(s, a)) < WorkLeft(s) && Next(s, a).nextFreq == s.nextFreq
    ensures WorkLeft(s) == 0 <==> !s.pending && s.worker.Asleep?
  {
    if s.worker.Read? {
      assert WorkerStep(Drive) && Enabled(s, Drive);
    } else if s.worker.Started? {
      assert WorkerStep(ReadFreq) && Enabled(s, ReadFreq);
    } else if s.pending {
      assert WorkerStep(Take) && Enabled(s, Take);
    }
  }

  /** From any reachable state with a request, once updates stop, a run of worker steps alone that
      exhausts the work ends with the driver at that request. */
  lemma QuietWorkerDelivers(s: State, run: seq<Step>, rest: seq<Step>)
    requires Initial(s) && Valid(s, run) && After(s, run).nextFreq != 0
    requires Valid(After(s, run), rest) && (forall i :: 0 <= i < |rest| ==> WorkerStep(rest[i]))
    requires |rest| >= WorkLeft(After(s, run))
    ensures After(After(s, run), rest).driver == After(s, run).nextFreq
  {
    RunKeepsInv(s, run);
    RestDrains(After(s, run), rest);
    RunKeepsInv(After(s, run), rest);
  }

  lemma {:induction false} RestDrains(s: State, rest: seq<Step>)
    requires Valid(s, rest) && (forall i :: 0 <= i < |rest| ==> WorkerStep(rest[i]))
    requires |rest| >= WorkLeft(s)
    ensures WorkLeft(After(s, rest)) == 0 && After(s, rest).nextFreq == s.nextFreq
    decreases |rest|
  {
    if rest != [] {
      WorkerDrains(s, rest[0]);
      RestDrains(Next(s, rest[0]), rest[1..]);
    }
  }
}
