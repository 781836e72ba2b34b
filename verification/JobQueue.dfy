/** The job queue of runtime/queue.py: a dictionary of job objects, in the order of their arrival. */
module JobQueue {
  import opened Prelude

  datatype Status = QUEUED | RUNNING | SUCCEEDED | FAILED | TIMED_OUT | CANCELLED | RETRY_EXHAUSTED

  datatype QueueError = AlreadyExists | UnknownJob | NotRunning | LeaseNotPositive

  /** The value of a job. */
  datatype JobState = JobState(
    id: string, status: Status, attempt: int, result: Option<string>, error: Option<string>,
    leaseUntil: Option<int>, maxAttempts: int)

  // ----- What each operation does to the jobs

  predicate HasJob(jobs: seq<JobState>, id: string) {
    exists i | 0 <= i < |jobs| :: jobs[i].id == id
  }

  function FirstQueued(jobs: seq<JobState>): (i: nat)
    ensures i <= |jobs|
    ensures i < |jobs| ==> jobs[i].status == QUEUED
    ensures forall k | 0 <= k < i :: jobs[k].status != QUEUED
  {
    if jobs == [] then 0 else if jobs[0].status == QUEUED then 0 else 1 + FirstQueued(jobs[1..])
  }

  function ClaimedJob(j: JobState, until: int): JobState {
    j.(status := RUNNING, attempt := j.attempt + 1, leaseUntil := Some(until))
  }

  function Claimed(jobs: seq<JobState>, until: int): seq<JobState> {
    var i := FirstQueued(jobs);
    if i < |jobs| then jobs[i := ClaimedJob(jobs[i], until)] else jobs
  }

  predicate Stale(j: JobState, now: int) {
    j.status == RUNNING && j.leaseUntil.Some? && j.leaseUntil.value <= now
  }

  function ReconciledJob(j: JobState, now: int): JobState {
    if !Stale(j, now) then j
    else if j.attempt >= j.maxAttempts then
      j.(status := RETRY_EXHAUSTED, error := Some("worker lease expired after maximum attempts"), leaseUntil := None)
    else j.(status := QUEUED, error := Some("worker lease expired; queued for retry"), leaseUntil := None)
  }

  function Reconciled(jobs: seq<JobState>, now: int): (after: seq<JobState>)
    ensures |after| == |jobs| && forall i | 0 <= i < |jobs| :: after[i] == ReconciledJob(jobs[i], now)
  {
    seq(|jobs|, i requires 0 <= i < |jobs| => ReconciledJob(jobs[i], now))
  }

  function StaleIds(jobs: seq<JobState>, now: int): seq<string> {
    if jobs == [] then []
    else StaleIds(jobs[..|jobs| - 1], now) + if Stale(jobs[|jobs| - 1], now) then [jobs[|jobs| - 1].id] else []
  }

  /** A running job is settled as succeeded with a result or as failed with an error. */
  function SettledJob(j: JobState, ok: bool, text: string): JobState {
    if ok then j.(status := SUCCEEDED, result := Some(text), leaseUntil := None)
    else j.(status := FAILED, error := Some(text), leaseUntil := None)
  }

  function Settled(jobs: seq<JobState>, id: string, ok: bool, text: string): Result<seq<JobState>, QueueError> {
    var i := Find(jobs, id);
    if i == |jobs| then Err(UnknownJob)
    else if jobs[i].status != RUNNING then Err(NotRunning)
    else Ok(jobs[i := SettledJob(jobs[i], ok, text)])
  }

  function Find(jobs: seq<JobState>, id: string): (i: nat)
    ensures i <= |jobs|
    ensures i < |jobs| ==> jobs[i].id == id
    ensures forall k | 0 <= k < i :: jobs[k].id != id
  {
    if jobs == [] then 0 else if jobs[0].id == id then 0 else 1 + Find(jobs[1..], id)
  }

  // ----- The objects

  class Job {
    const id: string
    var status: Status
    var attempt: int
    var result: Option<string>
    var error: Option<string>
    var leaseUntil: Option<int>
    const maxAttempts: int

    constructor (id: string, maxAttempts: int)
      ensures State() == JobState(id, QUEUED, 0, None, None, None, maxAttempts)
    {
      this.id, this.maxAttempts := id, maxAttempts;
      status, attempt, result, error, leaseUntil := QUEUED, 0, None, None, None;
    }

    function State(): JobState
      reads this
    {
      JobState(id, status, attempt, result, error, leaseUntil, maxAttempts)
    }

    /** What a claim does to the job it takes. */
    method Take(until: int)
      modifies this
      ensures State() == ClaimedJob(old(State()), until)
    {
      status := RUNNING;
      attempt := attempt + 1;
      leaseUntil := Some(until);
    }

    /** The body of the loop of `reconcile_stale`. */
    method Reconcile(now: int) returns (stale: bool)
      modifies this
      ensures State() == ReconciledJob(old(State()), now) && stale == Stale(old(State()), now)
    {
      if status != RUNNING || leaseUntil.None? || leaseUntil.value > now {
        return false;
      }
      if attempt >= maxAttempts {
        status := RETRY_EXHAUSTED;
        error := Some("worker lease expired after maximum attempts");
      } else {
        status := QUEUED;
        error := Some("worker lease expired; queued for retry");
      }
      leaseUntil := None;
      return true;
    }
  }

  function States(jobs: seq<Job>): (states: seq<JobState>)
    reads jobs
    ensures |states| == |jobs| && forall i | 0 <= i < |jobs| :: states[i] == jobs[i].State()
  {
    seq(|jobs|, i requires 0 <= i < |jobs| reads jobs => jobs[i].State())
  }

  function Listed(job: Option<Job>): seq<Job> {
    if job.Some? then [job.value] else []
  }

  class JobQueue {
    var jobs: seq<Job>

    ghost predicate Valid()
      reads this
    {
      forall i, j | 0 <= i < j < |jobs| :: jobs[i].id != jobs[j].id
    }

    ghost function Contents(): (states: seq<JobState>)
      reads this, jobs
      ensures |states| == |jobs|
    {
      States(jobs)
    }

    constructor ()
      ensures Valid() && jobs == []
    {
      jobs := [];
    }

    method Enqueue(job: Job) returns (r: Result<(), QueueError>)
      requires Valid()
      modifies this
      ensures Valid()
      ensures r == if HasJob(old(Contents()), job.id) then Err(AlreadyExists) else Ok(())
      ensures jobs == if r.Ok? then old(jobs) + [job] else old(jobs)
    {
      for i := 0 to |jobs|
        invariant forall k | 0 <= k < i :: jobs[k].id != job.id
      {
        if jobs[i].id == job.id {
          assert Contents()[i].id == job.id;
          return Err(AlreadyExists);
        }
      }
      jobs := jobs + [job];
      return Ok(());
    }

    method Claim(now: int, leaseSeconds: int) returns (r: Result<Option<Job>, QueueError>)
      requires Valid()
      modifies jobs
      ensures Valid() && unchanged(this)
      ensures leaseSeconds <= 0 ==> r == Err(LeaseNotPositive) && Contents() == old(Contents())
      ensures leaseSeconds > 0 ==>
                && Contents() == Claimed(old(Contents()), now + leaseSeconds)
                && var i := FirstQueued(old(Contents()));
                   r == Ok(if i < |jobs| then Some(jobs[i]) else None)
    {
      hide ClaimedJob;
      if leaseSeconds <= 0 {
        return Err(LeaseNotPositive);
      }
      for i := 0 to |jobs|
        invariant forall k | 0 <= k < i :: jobs[k].status != QUEUED
      {
        var job := jobs[i];
        if job.status == QUEUED {
          assert FirstQueued(Contents()) == i;
          job.Take(now + leaseSeconds);
          return Ok(Some(job));
        }
      }
      assert FirstQueued(Contents()) == |jobs|;
      return Ok(None);
    }

    method ReconcileStale(now: int) returns (reconciled: seq<string>)
      requires Valid()
      modifies jobs
      ensures Valid() && unchanged(this)
      ensures Contents() == Reconciled(old(Contents()), now)
      ensures reconciled == StaleIds(old(Contents()), now)
    {
      hide ReconciledJob, Stale;
      ghost var before := Contents();
      reconciled := [];
      for i := 0 to |jobs|
        invariant forall k | 0 <= k < |jobs| ::
                  jobs[k].State() == if k < i then ReconciledJob(before[k], now) else before[k]
        invariant reconciled == StaleIds(before[..i], now)
      {
        assert before[..i + 1][..i] == before[..i];
        var stale := jobs[i].Reconcile(now);
        if stale {
          reconciled := reconciled + [jobs[i].id];
        }
      }
      assert before[..|before|] == before;
    }

    /** `succeed` and `fail`. */
    method Settle(id: string, ok: bool, text: string) returns (r: Result<(), QueueError>)
      requires Valid()
      modifies jobs
      ensures Valid() && unchanged(this)
      ensures match Settled(old(Contents()), id, ok, text)
              case Ok(after) => r == Ok(()) && Contents() == after
              case Err(error) => r == Err(error) && Contents() == old(Contents())
    {
      var i := 0;
      while i < |jobs| && jobs[i].id != id
        invariant 0 <= i <= |jobs|
        invariant forall k | 0 <= k < i :: jobs[k].id != id
      {
        i := i + 1;
      }
      assert i == Find(Contents(), id);
      if i == |jobs| {
        return Err(UnknownJob);
      }
      var job := jobs[i];
      if job.status != RUNNING {
        return Err(NotRunning);
      }
      if ok {
        job.result := Some(text);
        job.status := SUCCEEDED;
      } else {
        job.error := Some(text);
        job.status := FAILED;
      }
      job.leaseUntil := None;
      return Ok(());
    }

    /** The claim loop of the scheduler: it takes every queued job, in the order of arrival. Each claim
        reads the clock. */
    method ClaimAll(clock: nat -> int, leaseSeconds: int) returns (claimed: seq<Job>)
      requires Valid() && leaseSeconds > 0
      modifies jobs
      ensures Valid() && unchanged(this)
      ensures Contents() == AllClaimed(old(Contents()), clock, leaseSeconds, 0)
      ensures claimed == Waiting(jobs, old(Contents()))
    {
      hide AllClaimed, Waiting, States, Valid, Contents;
      ghost var before := Contents();
      claimed := [];
      var job := ClaimNext(clock, 0, leaseSeconds);
      while job.Some?
        invariant unchanged(this) && Valid()
        invariant AllClaimed(Contents(), clock, leaseSeconds, |claimed + Listed(job)|)
                  == AllClaimed(before, clock, leaseSeconds, 0)
        invariant claimed + (Listed(job) + Waiting(jobs, Contents())) == Waiting(jobs, before)
        invariant job.None? ==> Waiting(jobs, Contents()) == []
        invariant job.None? ==> AllClaimed(Contents(), clock, leaseSeconds, |claimed|) == Contents()
        decreases |Waiting(jobs, Contents())|, job.Some?
      {
        Concat(claimed, Listed(job), Waiting(jobs, Contents()));
        claimed := claimed + [job.value];
        job := ClaimNext(clock, |claimed|, leaseSeconds);
      }
    }

    /** One round of the loop, the one after `n` claims. */
    method ClaimNext(clock: nat -> int, n: nat, leaseSeconds: int) returns (job: Option<Job>)
      requires Valid() && leaseSeconds > 0
      modifies jobs
      ensures Valid() && unchanged(this)
      ensures AllClaimed(Contents(), clock, leaseSeconds, n + |Listed(job)|)
              == AllClaimed(old(Contents()), clock, leaseSeconds, n)
      ensures Listed(job) + Waiting(jobs, Contents()) == Waiting(jobs, old(Contents()))
      ensures job.None? ==>
                Waiting(jobs, Contents()) == [] && AllClaimed(Contents(), clock, leaseSeconds, n) == Contents()
    {
      hide Claimed, AllClaimed, Waiting, FirstQueued, States, Valid;
      ClaimedRest(jobs, Contents(), clock, leaseSeconds, n);
      var r := Claim(clock(n), leaseSeconds);
      job := r.value;
      if job.None? {
        NoneQueued(jobs, Contents(), clock, leaseSeconds, n);
      }
    }
  }

  lemma Concat<T>(xs: seq<T>, ys: seq<T>, zs: seq<T>)
    ensures xs + (ys + zs) == (xs + ys) + zs
  {
  }

  /** The jobs when every queued one has been claimed, the first of them as claim number `n`. */
  function AllClaimed(jobs: seq<JobState>, clock: nat -> int, leaseSeconds: int, n: nat): seq<JobState> {
    if jobs == [] then []
    else if jobs[0].status == QUEUED then
      [ClaimedJob(jobs[0], clock(n) + leaseSeconds)] + AllClaimed(jobs[1..], clock, leaseSeconds, n + 1)
    else [jobs[0]] + AllClaimed(jobs[1..], clock, leaseSeconds, n)
  }

  /** Those of the jobs that are queued in these states. */
  function Waiting<J>(jobs: seq<J>, states: seq<JobState>): seq<J>
    requires |jobs| == |states|
  {
    if jobs == [] then []
    else (if states[0].status == QUEUED then [jobs[0]] else []) + Waiting(jobs[1..], states[1..])
  }

  lemma {:induction false} ClaimedWaiting<J>(jobs: seq<J>, states: seq<JobState>, until: int)
    requires |jobs| == |states| && FirstQueued(states) < |states|
    ensures Waiting(jobs, states) == [jobs[FirstQueued(states)]] + Waiting(jobs, Claimed(states, until))
  {
    if FirstQueued(states) == 0 {
      assert Claimed(states, until)[1..] == states[1..];
    } else {
      ClaimedWaiting(jobs[1..], states[1..], until);
      assert Claimed(states, until)[1..] == Claimed(states[1..], until);
    }
  }

  /** Claiming one job and then the rest is claiming all. */
  lemma {:induction false} ClaimedAll(states: seq<JobState>, clock: nat -> int, leaseSeconds: int, n: nat)
    requires FirstQueued(states) < |states|
    ensures AllClaimed(Claimed(states, clock(n) + leaseSeconds), clock, leaseSeconds, n + 1)
         == AllClaimed(states, clock, leaseSeconds, n)
  {
    var until := clock(n) + leaseSeconds;
    if FirstQueued(states) == 0 {
      assert Claimed(states, until)[1..] == states[1..];
    } else {
      ClaimedAll(states[1..], clock, leaseSeconds, n);
      assert Claimed(states, until)[1..] == Claimed(states[1..], until);
    }
  }

  lemma ClaimedRest<J>(jobs: seq<J>, states: seq<JobState>, clock: nat -> int, leaseSeconds: int, n: nat)
    requires |jobs| == |states|
    ensures var i, after := FirstQueued(states), Claimed(states, clock(n) + leaseSeconds);
            && (i == |states| ==> after == states)
            && AllClaimed(after, clock, leaseSeconds, if i < |jobs| then n + 1 else n)
                == AllClaimed(states, clock, leaseSeconds, n)
            && Waiting(jobs, states) == (if i < |jobs| then [jobs[i]] else []) + Waiting(jobs, after)
  {
    if FirstQueued(states) < |states| {
      ClaimedWaiting(jobs, states, clock(n) + leaseSeconds);
      ClaimedAll(states, clock, leaseSeconds, n);
    }
  }

  lemma {:induction false} NoneQueued<J>(jobs: seq<J>, states: seq<JobState>, clock: nat -> int, leaseSeconds: int,
                                         n: nat)
    requires |jobs| == |states| && FirstQueued(states) == |states|
    ensures Waiting(jobs, states) == [] && AllClaimed(states, clock, leaseSeconds, n) == states
  {
    if jobs == [] {
    } else {
      NoneQueued(jobs[1..], states[1..], clock, leaseSeconds, n);
    }
  }

  /** What that means of each job: a queued one runs under a lease from the claim's own reading of the clock,
      which comes after as many readings as jobs were queued before it, and the others are as before. */
  lemma {:induction false} AllClaimedAt(jobs: seq<JobState>, clock: nat -> int, leaseSeconds: int, n: nat, i: nat)
    requires i < |jobs|
    ensures |AllClaimed(jobs, clock, leaseSeconds, n)| == |jobs|
    ensures AllClaimed(jobs, clock, leaseSeconds, n)[i]
         == if jobs[i].status == QUEUED then ClaimedJob(jobs[i],
             clock(n + |Waiting(jobs[..i], jobs[..i])|) + leaseSeconds)
            else jobs[i]
  {
    hide ClaimedJob;
    AllClaimedLength(jobs, clock, leaseSeconds, n);
    if i == 0 {
      assert jobs[..0] == [];
    } else {
      AllClaimedAt(jobs[1..], clock, leaseSeconds, if jobs[0].status == QUEUED then n + 1 else n, i - 1);
      assert jobs[..i][1..] == jobs[1..][..i - 1];
    }
  }

  lemma {:induction false} AllClaimedLength(jobs: seq<JobState>, clock: nat -> int, leaseSeconds: int, n: nat)
    ensures |AllClaimed(jobs, clock, leaseSeconds, n)| == |jobs|
  {
    if jobs != [] {
      AllClaimedLength(jobs[1..], clock, leaseSeconds, if jobs[0].status == QUEUED then n + 1 else n);
    }
  }

  // ----- Histories

  datatype Operation =
    | Enqueue(job: JobState)
    | Claim(until: int)
    | ReconcileStale(now: int)
    | Settle(id: string, ok: bool, text: string)

  function Apply(jobs: seq<JobState>, op: Operation): seq<JobState> {
    match op
    case Enqueue(job) => if HasJob(jobs, job.id) then jobs else jobs + [job]
    case Claim(until) => Claimed(jobs, until)
    case ReconcileStale(now) => Reconciled(jobs, now)
    case Settle(id, ok, text) =>
      var r := Settled(jobs, id, ok, text);
      if r.Ok? then r.value else jobs
  }

  function Execute(jobs: seq<JobState>, ops: seq<Operation>): seq<JobState> {
    if ops == [] then jobs else Apply(Execute(jobs, ops[..|ops| - 1]), ops[|ops| - 1])
  }

  predicate Terminal(s: Status) {
    s == SUCCEEDED || s == FAILED || s == RETRY_EXHAUSTED
  }

  /** A job as it is constructed by default. */
  predicate New(j: JobState) {
    j.status == QUEUED && j.attempt == 0 && j.leaseUntil.None? && j.result.None? && j.error.None?
  }

  /** What the life of a job keeps: it is claimed at most `maxAttempts` times, or once; it has a lease
      just while it runs, and a result just when it has succeeded. */
  predicate Sound(j: JobState) {
    && 0 <= j.attempt
    && (j.status == QUEUED || j.status == RUNNING || Terminal(j.status))
    && (j.leaseUntil.Some? <==> j.status == RUNNING)
    && (j.result.Some? <==> j.status == SUCCEEDED)
    && (j.status == QUEUED ==> j.attempt == 0 || j.attempt < j.maxAttempts)
    && (j.status != QUEUED ==> 1 <= j.attempt && (j.attempt == 1 || j.attempt <= j.maxAttempts))
    && (j.status == FAILED || j.status == RETRY_EXHAUSTED ==> j.error.Some?)
    && (j.status == RETRY_EXHAUSTED ==> j.attempt >= j.maxAttempts)
  }

  /** The ways in which one operation may change a job. */
  predicate Moves(j: JobState, k: JobState) {
    && k.id == j.id && k.maxAttempts == j.maxAttempts
    && (Terminal(j.status) ==> k == j)
    && (Sound(j) ==> Sound(k))
    && (k.attempt == j.attempt || (k.attempt == j.attempt + 1 && j.status == QUEUED && k.status == RUNNING))
  }

  lemma StepMoves(jobs: seq<JobState>, op: Operation)
    requires op.Enqueue? ==> New(op.job)
    ensures var after := Apply(jobs, op);
            && |jobs| <= |after|
            && (forall i | 0 <= i < |jobs| :: Moves(jobs[i], after[i]))
            && (forall i | |jobs| <= i < |after| :: Sound(after[i]))
  {
    hide Reconciled, Sound, Moves, ClaimedJob, SettledJob;
    forall j | j in jobs
      ensures Moves(j, j)
    {
      MovesSame(j);
    }
    match op
    case Enqueue(job) => NewSound(job);
    case Claim(until) =>
      forall i | 0 <= i < |jobs|
        ensures Moves(jobs[i], Claimed(jobs, until)[i])
      {
        ClaimMoves(jobs, until, i);
      }
    case ReconcileStale(now) =>
      forall i | 0 <= i < |jobs|
        ensures Moves(jobs[i], Reconciled(jobs, now)[i])
      {
        ReconcileMoves(jobs[i], now);
      }
    case Settle(id, ok, text) =>
      forall i | 0 <= i < |jobs| && Settled(jobs, id, ok, text).Ok?
        ensures |Settled(jobs, id, ok, text).value| == |jobs| && Moves(jobs[i], Settled(jobs, id, ok, text).value[i])
      {
        SettleMoves(jobs, id, ok, text, i);
      }
  }

  lemma MovesSame(j: JobState)
    ensures Moves(j, j)
  {
  }

  lemma NewSound(j: JobState)
    requires New(j)
    ensures Sound(j)
  {
  }

  lemma ClaimMoves(jobs: seq<JobState>, until: int, i: nat)
    requires i < |jobs|
    ensures |Claimed(jobs, until)| == |jobs| && Moves(jobs[i], Claimed(jobs, until)[i])
  {
  }

  lemma ReconcileMoves(j: JobState, now: int)
    ensures Moves(j, ReconciledJob(j, now))
  {
  }

  lemma SettleMoves(jobs: seq<JobState>, id: string, ok: bool, text: string, i: nat)
    requires i < |jobs| && Settled(jobs, id, ok, text).Ok?
    ensures |Settled(jobs, id, ok, text).value| == |jobs| && Moves(jobs[i], Settled(jobs, id, ok, text).value[i])
  {
  }

  /** Over any history of new jobs: their places and limits stay, no job is claimed more often than its
      limit allows (or once, if the limit is below one), and one that has succeeded, failed or run out
      of retries never changes again. */
  lemma {:induction false} HistoryMoves(jobs: seq<JobState>, ops: seq<Operation>)
    requires forall j | j in jobs :: Sound(j)
    requires forall op | op in ops && op.Enqueue? :: New(op.job)
    ensures var after := Execute(jobs, ops);
            && |jobs| <= |after|
            && (forall j | j in after :: Sound(j))
            && (forall i | 0 <= i < |jobs| ::
                  && after[i].id == jobs[i].id && after[i].maxAttempts == jobs[i].maxAttempts
                  && (Terminal(jobs[i].status) ==> after[i] == jobs[i]))
  {
    if ops == [] {
    } else {
      var n := |ops| - 1;
      assert ops[n] in ops;
      assert forall op | op in ops[..n] :: op in ops;
      HistoryMoves(jobs, ops[..n]);
      StepMoves(Execute(jobs, ops[..n]), ops[n]);
    }
  }

  // ----- How a job ends

  /** The jobs when `n` operations have been done. */
  function Before(jobs: seq<JobState>, ops: seq<Operation>, n: nat): seq<JobState>
    requires n <= |ops|
  {
    Execute(jobs, ops[..n])
  }

  /** Operation `n` ends job `i`, which runs: by this outcome of its handler, or by a lease that is over
      when the claims have reached the limit. */
  predicate EndsAt(jobs: seq<JobState>, ops: seq<Operation>, n: nat, i: nat, end: Status)
    requires n < |ops|
  {
    var before := Before(jobs, ops, n);
    && i < |before|
    && before[i].status == RUNNING
    && match ops[n]
       case Settle(id, ok, _) => id == before[i].id && end == (if ok then SUCCEEDED else FAILED)
       case ReconcileStale(now) =>
         && before[i].leaseUntil.Some? && before[i].leaseUntil.value <= now
         && before[i].attempt >= before[i].maxAttempts && end == RETRY_EXHAUSTED
       case _ => false
  }

  ghost predicate DistinctIds(jobs: seq<JobState>) {
    forall i, j | 0 <= i < j < |jobs| :: jobs[i].id != jobs[j].id
  }

  lemma {:induction false} HistoryKeepsIds(jobs: seq<JobState>, ops: seq<Operation>)
    requires DistinctIds(jobs)
    ensures DistinctIds(Execute(jobs, ops)) && |jobs| <= |Execute(jobs, ops)|
  {
    if ops != [] {
      HistoryKeepsIds(jobs, ops[..|ops| - 1]);
      ApplyKeepsIds(Execute(jobs, ops[..|ops| - 1]), ops[|ops| - 1]);
    }
  }

  lemma ApplyKeepsIds(jobs: seq<JobState>, op: Operation)
    requires DistinctIds(jobs)
    ensures DistinctIds(Apply(jobs, op)) && |jobs| <= |Apply(jobs, op)|
  {
    hide ClaimedJob, ReconciledJob, SettledJob;
    match op
    case Enqueue(job) =>
    case Claim(until) => ClaimKeeps(jobs, until);
    case ReconcileStale(now) => ReconcileKeeps(jobs, now);
    case Settle(_, _, _) =>
      if Settled(jobs, op.id, op.ok, op.text).Ok? {
        SettleKeeps(jobs, op);
      }
  }

  lemma ClaimKeeps(jobs: seq<JobState>, until: int)
    ensures var after := Claimed(jobs, until);
            |after| == |jobs| && forall i | 0 <= i < |jobs| :: after[i].id == jobs[i].id
  {
  }

  lemma ReconcileKeeps(jobs: seq<JobState>, now: int)
    ensures var after := Reconciled(jobs, now);
            |after| == |jobs| && forall i | 0 <= i < |jobs| :: after[i].id == jobs[i].id
  {
  }

  lemma SettleKeeps(jobs: seq<JobState>, op: Operation)
    requires op.Settle? && Settled(jobs, op.id, op.ok, op.text).Ok?
    ensures var after := Apply(jobs, op); |after| == |jobs| && forall i | 0 <= i < |jobs| :: after[i].id == jobs[i].id
  {
  }

  /** What one operation does to the status of a job that is not at its end. */
  lemma StepEnds(jobs: seq<JobState>, op: Operation, i: nat)
    requires DistinctIds(jobs) && i < |jobs| && !Terminal(jobs[i].status)
    ensures |jobs| <= |Apply(jobs, op)|
    ensures forall end | Terminal(end) :: Apply(jobs, op)[i].status == end <==> EndsAt(jobs, [op], 0, i, end)
  {
    assert [op][..0] == [];
    hide HasJob, Reconciled;
    match op
    case Settle(id, ok, text) => assert jobs[i].id == id ==> Find(jobs, id) == i;
    case Claim(until) => hide FirstQueued;
    case _ =>
  }

  lemma EndsAtPrefix(jobs: seq<JobState>, ops: seq<Operation>, op: Operation, i: nat, end: Status)
    ensures forall n | 0 <= n < |ops| :: EndsAt(jobs, ops + [op], n, i, end) == EndsAt(jobs, ops, n, i, end)
    ensures EndsAt(jobs, ops + [op], |ops|, i, end) == EndsAt(Execute(jobs, ops), [op], 0, i, end)
  {
    hide Execute;
    var all := ops + [op];
    assert forall n | 0 <= n < |ops| :: all[..n] == ops[..n];
    assert all[..|ops|] == ops;
    assert [op][..0] == [];
    ExecuteNothing(Execute(jobs, ops));
  }

  lemma ExecuteNothing(jobs: seq<JobState>)
    ensures Execute(jobs, []) == jobs
  {
  }

  lemma TerminalStays(jobs: seq<JobState>, op: Operation, i: nat)
    requires i < |jobs| && Terminal(jobs[i].status)
    ensures |jobs| <= |Apply(jobs, op)| && Apply(jobs, op)[i] == jobs[i]
    ensures forall end :: !EndsAt(jobs, [op], 0, i, end)
  {
    assert [op][..0] == [];
  }

  /** How any job of any history has ended: as succeeded exactly when an operation settled it with a result
      while it ran, as failed exactly when one settled it with an error, and as retired exactly when its lease
      was over with as many claims made as its limit allows. */
  lemma {:induction false} EndIff(jobs: seq<JobState>, ops: seq<Operation>, i: nat, end: Status)
    requires DistinctIds(jobs) && i < |jobs| && !Terminal(jobs[i].status) && Terminal(end)
    ensures |jobs| <= |Execute(jobs, ops)|
    ensures Execute(jobs, ops)[i].status == end <==> exists n | 0 <= n < |ops| :: EndsAt(jobs, ops, n, i, end)
  {
    hide EndsAt, Apply, Terminal, DistinctIds;
    if ops != [] {
      var n := |ops| - 1;
      EndIff(jobs, ops[..n], i, end);
      HistoryKeepsIds(jobs, ops[..n]);
      assert ops == ops[..n] + [ops[n]];
      EndsAtPrefix(jobs, ops[..n], ops[n], i, end);
      var before := Execute(jobs, ops[..n]);
      if Terminal(before[i].status) {
        TerminalStays(before, ops[n], i);
      } else {
        StepEnds(before, ops[n], i);
      }
      assert forall m | 0 <= m < n :: EndsAt(jobs, ops, m, i, end) == EndsAt(jobs, ops[..n], m, i, end);
    }
  }

  /** A reconciliation leaves no running job with a lease that is over, puts back in the queue exactly the
      jobs whose lease was over and that may be claimed again, and touches no other; doing it again at the same
      moment, or at an earlier one, changes nothing. */
  lemma ReconcileClears(jobs: seq<JobState>, now: int, earlier: int)
    requires earlier <= now
    ensures var after := Reconciled(jobs, now);
            && StaleIds(after, earlier) == [] && Reconciled(after, earlier) == after
            && forall i | 0 <= i < |jobs| ::
                 && !(after[i].status == RUNNING && after[i].leaseUntil.Some? && after[i].leaseUntil.value <= now)
                 && (after[i].status == QUEUED <==>
                       || jobs[i].status == QUEUED
                       || (Stale(jobs[i], now) && jobs[i].attempt < jobs[i].maxAttempts))
                 && (after[i] != jobs[i] ==> jobs[i].leaseUntil.Some? && after[i].leaseUntil.None?)
  {
    var after := Reconciled(jobs, now);
    NoneStale(after, earlier);
    assert forall i | 0 <= i < |jobs| :: Reconciled(after, earlier)[i] == after[i];
  }

  lemma {:induction false} NoneStale(jobs: seq<JobState>, now: int)
    requires forall i | 0 <= i < |jobs| :: !Stale(jobs[i], now)
    ensures StaleIds(jobs, now) == []
  {
    if jobs != [] {
      NoneStale(jobs[..|jobs| - 1], now);
    }
  }

  /** The number of claims a history makes of a job is its attempt count, so that is bounded too. */
  function Claims(jobs: seq<JobState>, ops: seq<Operation>, i: nat): nat {
    if ops == [] then 0
    else
      var before := Execute(jobs, ops[..|ops| - 1]);
      Claims(jobs, ops[..|ops| - 1], i) +
      if ops[|ops| - 1].Claim? && FirstQueued(before) == i < |before| then 1 else 0
  }

  lemma {:induction false} ClaimsAreAttempts(jobs: seq<JobState>, ops: seq<Operation>, i: nat)
    requires i < |jobs|
    ensures |jobs| <= |Execute(jobs, ops)| && Execute(jobs, ops)[i].attempt == jobs[i].attempt + Claims(jobs, ops, i)
  {
    if ops == [] {
    } else {
      ClaimsAreAttempts(jobs, ops[..|ops| - 1], i);
    }
  }
}
