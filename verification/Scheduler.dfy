/** The worker threads of runtime/scheduler.py around the counting semaphore of
    runtime/resource_manager.py, without a heartbeat store. */
module Scheduler {
  import opened Prelude
  import opened JobQueue

  // ----- The semaphore

  /** `ResourceManager`. The methods are what its own methods do between taking and giving up the lock
      of the condition. */
  class ResourceManager {
    const maxConcurrency: int
    var active: int

    constructor (maxConcurrency: int)
      requires maxConcurrency > 0
      ensures this.maxConcurrency == maxConcurrency && active == 0
    {
      this.maxConcurrency := maxConcurrency;
      active := 0;
    }

    /** One look at the counter inside `acquire`: the slot is taken, or the caller has to wait. */
    method TryAcquire() returns (acquired: bool)
      modifies this
      ensures (acquired, active) == Tried(old(active), maxConcurrency)
      ensures acquired <==> old(active) < maxConcurrency
    {
      if active >= maxConcurrency {
        return false;
      }
      active := active + 1;
      return true;
    }

    /** `release`; one waiting thread, if any, is notified then. */
    method Release() returns (r: Result<(), string>)
      modifies this
      ensures match Released(old(active))
              case Ok(n) => r == Ok(()) && active == n
              case Err(e) => r == Err(e) && active == old(active)
      ensures r.Ok? <==> old(active) > 0
    {
      if active <= 0 {
        return Err("resource release without reservation");
      }
      active := active - 1;
      return Ok(());
    }
  }

  /** `ResourceManager(...)`, which refuses a limit that is not positive. */
  method NewManager(maxConcurrency: int) returns (r: Result<ResourceManager, string>)
    ensures r.Ok? <==> maxConcurrency > 0
    ensures r.Ok? ==> fresh(r.value) && r.value.maxConcurrency == maxConcurrency && r.value.active == 0
  {
    if maxConcurrency <= 0 {
      return Err("max_concurrency must be positive");
    }
    var manager := new ResourceManager(maxConcurrency);
    return Ok(manager);
  }

  function Tried(active: int, max: int): (bool, int) {
    if active >= max then (false, active) else (true, active + 1)
  }

  function Released(active: int): Result<int, string> {
    if active <= 0 then Err("resource release without reservation") else Ok(active - 1)
  }

  // ----- The threads

  /** Where a worker thread is: before its first look at the counter, waiting on the condition,
      notified but not yet back with the lock, running the handler, past the record of its outcome and
      before the release, or done. `Broken` is a release that raised. */
  datatype Place = Starting | Parked | Woken | Holding | Recorded | Done | Broken

  datatype Worker = Worker(place: Place, status: Status)

  datatype Pool = Pool(max: int, active: int, workers: seq<Worker>)

  /** One step of one thread: it looks at the counter for the first time or again, it runs the handler
      and records the outcome, or it releases and notifies. `Expire` is the lease of a running job being
      reconciled as stale from outside. */
  datatype Step =
    | Look(worker: nat)
    | Handle(worker: nat, ok: bool)
    | Release(worker: nat, wake: Option<nat>)
    | Expire(worker: nat, status: Status)

  predicate At(p: Pool, i: nat, place: Place) {
    i < |p.workers| && p.workers[i].place == place
  }

  predicate Enabled(p: Pool, s: Step) {
    match s
    case Look(i) => At(p, i, Starting) || At(p, i, Woken)
    case Handle(i, _) => At(p, i, Holding)
    case Release(i, wake) =>
      && At(p, i, Recorded)
      && (match wake
          case Some(k) => At(p, k, Parked)
          case None => forall k: nat | k < |p.workers| :: !At(p, k, Parked))
    case Expire(i, status) =>
      && i < |p.workers| && p.workers[i].status == RUNNING && p.workers[i].place != Done
      && (status == QUEUED || status == RETRY_EXHAUSTED)
  }

  function Moved(p: Pool, i: nat, place: Place): Pool
    requires i < |p.workers|
  {
    p.(workers := p.workers[i := p.workers[i].(place := place)])
  }

  function Next(p: Pool, s: Step): Pool
    requires Enabled(p, s)
  {
    match s
    case Look(i) =>
      var (acquired, active) := Tried(p.active, p.max);
      Moved(p, i, if acquired then Holding else Parked).(active := active)
    case Handle(i, ok) =>
      // A job that is not running any more is left as it is: both ways to settle it raise.
      var w := p.workers[i];
      var status := if w.status != RUNNING then w.status else if ok then SUCCEEDED else FAILED;
      p.(workers := p.workers[i := Worker(Recorded, status)])
    case Release(i, wake) =>
      (match Released(p.active)
       case Err(_) => Moved(p, i, Broken)
       case Ok(active) =>
         var q := Moved(p, i, Done).(active := active);
         if wake.Some? then Moved(q, wake.value, Woken) else q)
    case Expire(i, status) => p.(workers := p.workers[i := p.workers[i].(status := status)])
  }

  predicate Possible(p: Pool, steps: seq<Step>)
    decreases |steps|, 0
  {
    steps == [] ||
    (Possible(p, steps[..|steps| - 1]) && Enabled(Run(p, steps[..|steps| - 1]), steps[|steps| - 1]))
  }

  function Run(p: Pool, steps: seq<Step>): Pool
    requires Possible(p, steps)
    decreases |steps|, 1
  {
    if steps == [] then p else Next(Run(p, steps[..|steps| - 1]), steps[|steps| - 1])
  }

  /** The pool when `count` jobs have been claimed and their threads started. */
  function Start(max: int, count: nat): Pool {
    Pool(max, 0, seq(count, _ => Worker(Starting, RUNNING)))
  }

  // ----- Counting threads

  function Count(workers: seq<Worker>, place: Place): nat {
    if workers == [] then 0
    else Count(workers[..|workers| - 1], place) + if workers[|workers| - 1].place == place then 1 else 0
  }

  lemma {:induction false} CountUpdate(workers: seq<Worker>, i: nat, w: Worker, place: Place)
    requires i < |workers|
    ensures Count(workers[i := w], place)
         == Count(workers, place) - (if workers[i].place == place then 1 else 0) + (if w.place == place then 1 else 0)
  {
    var n := |workers| - 1;
    if i == n {
      assert workers[i := w][..n] == workers[..n];
    } else {
      CountUpdate(workers[..n], i, w, place);
      assert workers[i := w][..n] == workers[..n][i := w];
    }
  }

  lemma {:induction false} CountWitness(workers: seq<Worker>, place: Place)
    ensures Count(workers, place) > 0 <==> exists i: nat :: i < |workers| && workers[i].place == place
  {
    if workers == [] {
    } else {
      var n := |workers| - 1;
      CountWitness(workers[..n], place);
      if Count(workers[..n], place) > 0 {
        var i: nat :| i < n && workers[..n][i].place == place;
        assert workers[i].place == place;
      }
      if i: nat :| i < |workers| && workers[i].place == place {
        if i < n {
          assert workers[..n][i].place == place;
        }
      }
    }
  }

  // ----- What every interleaving keeps

  /** The counter counts the threads between acquire and release and never exceeds the limit, and no
      wake-up is lost: while threads wait, as many threads are on their way to look at the counter again
      as there are free slots. */
  ghost predicate Inv(p: Pool) {
    && 0 <= p.active <= p.max
    && p.active == Count(p.workers, Holding) + Count(p.workers, Recorded)
    && (Count(p.workers, Parked) > 0 ==> Count(p.workers, Woken) >= p.max - p.active)
    && Count(p.workers, Broken) == 0
  }

  lemma CountMoved(p: Pool, i: nat, place: Place, counted: Place)
    requires i < |p.workers|
    ensures Count(Moved(p, i, place).workers, counted)
         == Count(p.workers, counted) - (if p.workers[i].place == counted then 1 else 0)
             + (if place == counted then 1 else 0)
  {
    CountUpdate(p.workers, i, p.workers[i].(place := place), counted);
  }

  /** Looking at the counter. */
  lemma LookKeepsInv(p: Pool, s: Step)
    requires Inv(p) && s.Look? && Enabled(p, s)
    ensures Inv(Next(p, s))
  {
    hide Count;
    var to := if Tried(p.active, p.max).0 then Holding else Parked;
    forall counted
      ensures Count(Moved(p, s.worker, to).workers, counted)
           == Count(p.workers, counted) - (if p.workers[s.worker].place == counted then 1 else 0)
               + (if to == counted then 1 else 0)
    {
      CountMoved(p, s.worker, to, counted);
    }
  }

  lemma ReleaseKeepsInv(p: Pool, s: Step)
    requires Inv(p) && s.Release? && Enabled(p, s)
    ensures Inv(Next(p, s))
  {
    hide Count;
    var i := s.worker;
    CountWitness(p.workers, Recorded);
    if Count(p.workers, Parked) > 0 {
      CountWitness(p.workers, Parked);
      var k: nat :| k < |p.workers| && p.workers[k].place == Parked;
      assert At(p, k, Parked);
    }
    var q := Moved(p, i, Done);
    forall counted
      ensures Count(q.workers, counted)
           == Count(p.workers, counted) - (if counted == Recorded then 1 else 0) + (if counted == Done then 1 else 0)
    {
      CountMoved(p, i, Done, counted);
    }
    if s.wake.Some? {
      forall counted
        ensures Count(Moved(q, s.wake.value, Woken).workers, counted)
             == Count(q.workers, counted) - (if counted == Parked then 1 else 0) + (if counted == Woken then 1 else 0)
      {
        CountMoved(q, s.wake.value, Woken, counted);
      }
    }
  }

  lemma RecordKeepsInv(p: Pool, s: Step)
    requires Inv(p) && (s.Handle? || s.Expire?) && Enabled(p, s)
    ensures Inv(Next(p, s))
  {
    hide Count;
    var i, w := s.worker, Next(p, s).workers[s.worker];
    forall counted
      ensures Count(p.workers[i := w], counted)
           == Count(p.workers, counted) - (if p.workers[i].place == counted then 1 else 0)
               + (if w.place == counted then 1 else 0)
    {
      CountUpdate(p.workers, i, w, counted);
    }
  }

  lemma NextKeepsInv(p: Pool, s: Step)
    requires Inv(p) && Enabled(p, s)
    ensures Inv(Next(p, s))
  {
    hide Inv, Enabled, Next;
    match s
    case Look(_) => LookKeepsInv(p, s);
    case Release(_, _) => ReleaseKeepsInv(p, s);
    case _ => RecordKeepsInv(p, s);
  }

  lemma {:induction false} StartInv(max: int, count: nat)
    requires max > 0
    ensures Inv(Start(max, count))
  {
    if count == 0 {
    } else {
      StartInv(max, count - 1);
      assert Start(max, count).workers[..count - 1] == Start(max, count - 1).workers;
    }
  }

  /** Every interleaving keeps the invariant. In particular the number of jobs in a handler never
      exceeds the limit and no release finds the counter at zero. */
  lemma {:induction false} RunInv(max: int, count: nat, steps: seq<Step>)
    requires max > 0 && Possible(Start(max, count), steps)
    ensures Inv(Run(Start(max, count), steps))
  {
    hide Inv;
    if steps == [] {
      StartInv(max, count);
    } else {
      RunInv(max, count, steps[..|steps| - 1]);
      NextKeepsInv(Run(Start(max, count), steps[..|steps| - 1]), steps[|steps| - 1]);
    }
  }

  // ----- No deadlock

  /** Unless every thread is done, some thread can take a step that is not a lease expiring. */
  lemma NoDeadlock(p: Pool, i: nat)
    requires Inv(p) && p.max > 0 && i < |p.workers| && p.workers[i].place != Done
    ensures exists s: Step :: !s.Expire? && Enabled(p, s)
  {
    hide Count;
    CountWitness(p.workers, Woken);
    CountWitness(p.workers, Holding);
    CountWitness(p.workers, Recorded);
    CountWitness(p.workers, Parked);
    CountWitness(p.workers, Broken);
    if k: nat :| k < |p.workers| && (p.workers[k].place == Starting || p.workers[k].place == Woken) {
      assert Enabled(p, Look(k));
    } else if k: nat :| k < |p.workers| && p.workers[k].place == Holding {
      assert Enabled(p, Handle(k, true));
    } else if k: nat :| k < |p.workers| && p.workers[k].place == Recorded {
      if w: nat :| w < |p.workers| && p.workers[w].place == Parked {
        assert Enabled(p, Release(k, Some(w)));
      } else {
        assert Enabled(p, Release(k, None));
      }
    } else {
      // Whoever is not done is parked, so all slots are taken, and by nobody.
      assert false;
    }
  }

  // ----- No livelock

  /** A bound on the steps ahead of a thread; a wake-up is paid for by the thread that releases. */
  function Weight(w: Worker): nat {
    (match w.place
     case Starting => 6
     case Woken => 5
     case Parked => 4
     case Holding => 3
     case Recorded => 2
     case Done => 0
     case Broken => 0) + if w.status == RUNNING then 1 else 0
  }

  function Ahead(workers: seq<Worker>): nat {
    if workers == [] then 0 else Ahead(workers[..|workers| - 1]) + Weight(workers[|workers| - 1])
  }

  lemma {:induction false} AheadUpdate(workers: seq<Worker>, i: nat, w: Worker)
    requires i < |workers|
    ensures Ahead(workers[i := w]) == Ahead(workers) - Weight(workers[i]) + Weight(w)
  {
    var n := |workers| - 1;
    if i == n {
      assert workers[i := w][..n] == workers[..n];
    } else {
      AheadUpdate(workers[..n], i, w);
      assert workers[i := w][..n] == workers[..n][i := w];
    }
  }

  lemma NextDecreases(p: Pool, s: Step)
    requires Enabled(p, s)
    ensures Ahead(Next(p, s).workers) < Ahead(p.workers)
  {
    var q, i := Next(p, s), s.worker;
    AheadUpdate(p.workers, i, q.workers[i]);
    if s.Release? && s.wake.Some? {
      var once := p.workers[i := q.workers[i]];
      AheadUpdate(once, s.wake.value, q.workers[s.wake.value]);
    }
  }

  lemma {:induction false} StartAhead(max: int, count: nat)
    ensures Ahead(Start(max, count).workers) == 7 * count
  {
    if count == 0 {
    } else {
      StartAhead(max, count - 1);
      assert Start(max, count).workers[..count - 1] == Start(max, count - 1).workers;
    }
  }

  /** No interleaving goes on for more than seven steps a job. */
  lemma RunBounded(max: int, count: nat, steps: seq<Step>)
    requires Possible(Start(max, count), steps)
    ensures |steps| <= 7 * count
  {
    StartAhead(max, count);
    RunDecreases(Start(max, count), steps);
  }

  lemma {:induction false} RunDecreases(p: Pool, steps: seq<Step>)
    requires Possible(p, steps)
    ensures |steps| + Ahead(Run(p, steps).workers) <= Ahead(p.workers)
  {
    hide Next, Enabled;
    if steps == [] {
    } else {
      RunDecreases(p, steps[..|steps| - 1]);
      NextDecreases(Run(p, steps[..|steps| - 1]), steps[|steps| - 1]);
    }
  }

  // ----- The end

  predicate Expired(steps: seq<Step>, i: nat) {
    exists k | 0 <= k < |steps| :: steps[k].Expire? && steps[k].worker == i
  }

  /** The record of worker `i` says how its handler ended: succeeded exactly when it returned, failed exactly
      when it raised. */
  ghost predicate Truthful(w: Worker, steps: seq<Step>, i: nat) {
    && (w.status == SUCCEEDED || w.status == FAILED)
    && (w.status == SUCCEEDED <==> Handle(i, true) in steps)
    && (w.status == FAILED <==> Handle(i, false) in steps)
  }

  /** A thread past its handler has recorded how the handler ended, unless the lease had expired; then the job
      keeps what the reconciliation made of it. */
  ghost predicate Settled(p: Pool, steps: seq<Step>) {
    forall i: nat | i < |p.workers| ::
      if Expired(steps, i) then Expire(i, p.workers[i].status) in steps && p.workers[i].status != RUNNING
      else if p.workers[i].place == Recorded || p.workers[i].place == Done then Truthful(p.workers[i], steps, i)
      else p.workers[i].place == Broken
           || (p.workers[i].status == RUNNING && Handle(i, true) !in steps && Handle(i, false) !in steps)
  }

  lemma {:induction false} RunSettles(max: int, count: nat, steps: seq<Step>)
    requires Possible(Start(max, count), steps)
    ensures Settled(Run(Start(max, count), steps), steps) && |Run(Start(max, count), steps).workers| == count
    ensures Run(Start(max, count), steps).max == max
  {
    hide Next, Enabled, Settled;
    if steps == [] {
      StartSettled(max, count);
    } else {
      var n := |steps| - 1;
      RunSettles(max, count, steps[..n]);
      assert steps == steps[..n] + [steps[n]];
      NextSettles(Run(Start(max, count), steps[..n]), steps[..n], steps[n]);
    }
  }

  lemma StartSettled(max: int, count: nat)
    ensures Settled(Start(max, count), [])
  {
  }

  lemma NextSettles(p: Pool, steps: seq<Step>, s: Step)
    requires Enabled(p, s) && Settled(p, steps)
    ensures Settled(Next(p, s), steps + [s]) && |Next(p, s).workers| == |p.workers| && Next(p, s).max == p.max
  {
    forall i: nat
      ensures Expired(steps + [s], i) <==> Expired(steps, i) || (s.Expire? && s.worker == i)
    {
      ExpiredSnoc(steps, s, i);
    }
    hide Expired;
  }

  lemma ExpiredSnoc(steps: seq<Step>, s: Step, i: nat)
    ensures Expired(steps + [s], i) <==> Expired(steps, i) || (s.Expire? && s.worker == i)
  {
    var all := steps + [s];
    if k :| 0 <= k < |steps| && steps[k].Expire? && steps[k].worker == i {
      assert all[k] == steps[k];
    }
    assert all[|steps|] == s;
  }

  ghost predicate AllDone(p: Pool) {
    forall w | w in p.workers :: w.place == Done
  }

  lemma PossibleMore(p: Pool, steps: seq<Step>, s: Step)
    requires Possible(p, steps) && Enabled(Run(p, steps), s)
    ensures Possible(p, steps + [s]) && Run(p, steps + [s]) == Next(Run(p, steps), s)
  {
    hide Enabled, Next;
    assert (steps + [s])[..|steps|] == steps;
  }

  /** From every moment of every run there is a way to its end, without any lease expiring. */
  lemma {:induction false} CanFinish(max: int, count: nat, steps: seq<Step>) returns (more: seq<Step>)
    requires max > 0 && Possible(Start(max, count), steps)
    ensures Possible(Start(max, count), steps + more) && forall s | s in more :: !s.Expire?
    ensures AllDone(Run(Start(max, count), steps + more)) && |Run(Start(max, count), steps + more).workers| == count
    decreases Ahead(Run(Start(max, count), steps).workers)
  {
    hide Enabled, Run, Next, Possible, Inv, Ahead, Count, Settled;
    var p := Run(Start(max, count), steps);
    RunInv(max, count, steps);
    RunSettles(max, count, steps);
    if AllDone(p) {
      more := [];
      assert steps + more == steps;
    } else {
      var w :| w in p.workers && w.place != Done;
      var i :| 0 <= i < |p.workers| && p.workers[i] == w;
      NoDeadlock(p, i);
      var s: Step :| !s.Expire? && Enabled(p, s);
      PossibleMore(Start(max, count), steps, s);
      NextDecreases(p, s);
      var rest := CanFinish(max, count, steps + [s]);
      more := [s] + rest;
      assert steps + more == steps + [s] + rest;
    }
  }

  /** There is a run to the end, for any limit and any number of jobs. */
  lemma CanRun(max: int, count: nat) returns (steps: seq<Step>)
    requires max > 0
    ensures Possible(Start(max, count), steps) && forall s | s in steps :: !s.Expire?
    ensures AllDone(Run(Start(max, count), steps)) && |Run(Start(max, count), steps).workers| == count
  {
    steps := CanFinish(max, count, []);
    assert [] + steps == steps;
  }

  /** At any moment of any run, every job past its handler whose lease was not reconciled is recorded as
      succeeded exactly when its handler returned and as failed exactly when it raised. */
  lemma OutcomesRecorded(max: int, count: nat, steps: seq<Step>, i: nat)
    requires Possible(Start(max, count), steps) && i < count && !Expired(steps, i)
    ensures |Run(Start(max, count), steps).workers| == count
    ensures Run(Start(max, count), steps).workers[i].place in {Recorded, Done}
            ==> Truthful(Run(Start(max, count), steps).workers[i], steps, i)
  {
    hide Enabled, Run, Next, Possible, Expired, Truthful;
    RunSettles(max, count, steps);
  }

  /** Whatever the scheduler of the machine does: every run of threads that cannot go on has ended with
      all of them done, no slot taken, and every claimed job recorded as its handler ended, or, if its lease
      was reconciled as stale from outside, as that left it. Together with the bound on the steps, every run
      gets there. */
  lemma RunCompletes(max: int, count: nat, steps: seq<Step>)
    requires max > 0 && Possible(Start(max, count), steps)
    requires forall s: Step :: !s.Expire? ==> !Enabled(Run(Start(max, count), steps), s)
    ensures var end := Run(Start(max, count), steps);
            && end.active == 0 && |end.workers| == count
            && forall i: nat | i < count ::
                 && end.workers[i].place == Done
                 && if Expired(steps, i) then Expire(i, end.workers[i].status) in steps
                    else Truthful(end.workers[i], steps, i)
  {
    hide Enabled, Count, Run, Next, Possible, Expired, Truthful;
    var end := Run(Start(max, count), steps);
    RunInv(max, count, steps);
    RunSettles(max, count, steps);
    forall i: nat | i < count
      ensures end.workers[i].place == Done
    {
      if end.workers[i].place != Done {
        NoDeadlock(end, i);
      }
    }
    CountWitness(end.workers, Holding);
    CountWitness(end.workers, Recorded);
  }
}
