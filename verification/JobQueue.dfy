/**
 The distillation job table: coalescing enqueue, claim under a lease, completion,
 failure with exponential backoff, and recovery of claims whose lease ran out.
 Times are milliseconds.
 */
module JobQueue {
  import opened Tables

  const BASE_BACKOFF_MS: nat := 30_000
  const MAX_BACKOFF_MS: nat := 900_000
  const MAX_ATTEMPTS: nat := 8
  const PRIORITY_PASSIVE := 0
  const PRIORITY_EXPLICIT := 10

  datatype Status = Pending | Running | Done | Dead

  datatype Origin = Sweep | Http | Mcp

  datatype Job = Job(id: string, storeKey: string, status: Status, attempts: nat, nextAttemptAt: int,
                     priority: int, origin: Origin, error: Option<string>, leaseUntil: Option<int>, worker: Option<string>)

  /** Position of the row with this id, -1 if there is none. */
  function IndexOf(jobs: seq<Job>, id: string): (i: int)
    ensures -1 <= i < |jobs|
    ensures i >= 0 ==> jobs[i].id == id
    ensures i == -1 ==> forall k :: 0 <= k < |jobs| ==> jobs[k].id != id
  {
    if jobs == [] then -1
    else if jobs[|jobs| - 1].id == id then |jobs| - 1
    else IndexOf(jobs[..|jobs| - 1], id)
  }

  /** The first pending row of a store, -1 if there is none. */
  function PendingIndex(jobs: seq<Job>, storeKey: string, k: nat): (i: int)
    requires k <= |jobs|
    ensures -1 <= i < k
    ensures i >= 0 ==> jobs[i].storeKey == storeKey && jobs[i].status == Pending
    ensures forall n :: 0 <= n < (if i == -1 then k else i) ==> !(jobs[n].storeKey == storeKey && jobs[n].status == Pending)
  {
    if k == 0 then -1
    else
      var front := PendingIndex(jobs, storeKey, k - 1);
      if front >= 0 then front
      else if jobs[k - 1].storeKey == storeKey && jobs[k - 1].status == Pending then k - 1
      else -1
  }

  /** Coalesce with a pending row of the same store, raising its priority if the new one is
      higher; insert otherwise. An id already in use refuses the insert. */
  function Enqueue(jobs: seq<Job>, storeKey: string, priority: int, origin: Origin, newId: string, now: int): seq<Job> {
    var i := PendingIndex(jobs, storeKey, |jobs|);
    if i >= 0 then
      if priority > jobs[i].priority then jobs[i := jobs[i].(priority := priority, origin := origin)] else jobs
    else if IndexOf(jobs, newId) >= 0 then jobs
    else jobs + [Job(newId, storeKey, Pending, 0, now, priority, origin, None, None, None)]
  }

  predicate Ready(job: Job, now: int, minPriority: Option<int>) {
    && (|| (job.status == Pending && job.nextAttemptAt <= now)
        || (job.status == Running && (job.leaseUntil == None || job.leaseUntil.value < now)))
    && (minPriority.Some? ==> job.priority >= minPriority.value)
  }

  /** Claimed before: higher priority first, then the earlier due time, then the older row. */
  predicate Precedes(jobs: seq<Job>, a: int, b: int)
    requires 0 <= a < |jobs| && 0 <= b < |jobs|
  {
    || jobs[a].priority > jobs[b].priority
    || (jobs[a].priority == jobs[b].priority
        && (jobs[a].nextAttemptAt < jobs[b].nextAttemptAt || (jobs[a].nextAttemptAt == jobs[b].nextAttemptAt && a < b)))
  }

  /** The row to claim among the first k, -1 if none is ready. */
  function ClaimIndex(jobs: seq<Job>, now: int, minPriority: Option<int>, k: nat): (i: int)
    requires k <= |jobs|
    ensures -1 <= i < k
    ensures i >= 0 ==> Ready(jobs[i], now, minPriority)
    ensures forall n :: 0 <= n < k && Ready(jobs[n], now, minPriority) ==> i >= 0 && (n == i || Precedes(jobs, i, n))
  {
    if k == 0 then -1
    else
      var best := ClaimIndex(jobs, now, minPriority, k - 1);
      if !Ready(jobs[k - 1], now, minPriority) then best
      else if best == -1 || Precedes(jobs, k - 1, best) then k - 1
      else best
  }

  function Claimed(job: Job, leaseUntil: int, worker: string): Job {
    job.(status := Running, attempts := job.attempts + 1, leaseUntil := Some(leaseUntil), worker := Some(worker))
  }

  function Claim(jobs: seq<Job>, i: int, leaseUntil: int, worker: string): seq<Job>
    requires -1 <= i < |jobs|
  {
    if i == -1 then jobs else jobs[i := Claimed(jobs[i], leaseUntil, worker)]
  }

  function Completed(job: Job): Job {
    job.(status := Done, leaseUntil := None, worker := None)
  }

  function Complete(jobs: seq<Job>, id: string): seq<Job> {
    var i := IndexOf(jobs, id);
    if i == -1 then jobs else jobs[i := Completed(jobs[i])]
  }

  function Pow2(n: nat): nat { if n == 0 then 1 else 2 * Pow2(n - 1) }

  /** 30 s doubling per attempt, capped at 15 min (half of 30 s for a job never claimed). */
  function Backoff(attempts: nat): nat {
    if attempts == 0 then BASE_BACKOFF_MS / 2
    else if BASE_BACKOFF_MS * Pow2(attempts - 1) < MAX_BACKOFF_MS then BASE_BACKOFF_MS * Pow2(attempts - 1)
    else MAX_BACKOFF_MS
  }

  function Failed(job: Job, error: string, now: int): Job {
    var released := job.(error := Some(error), leaseUntil := None, worker := None);
    if job.attempts >= MAX_ATTEMPTS then released.(status := Dead)
    else released.(status := Pending, nextAttemptAt := now + Backoff(job.attempts))
  }

  function Fail(jobs: seq<Job>, id: string, error: string, now: int): seq<Job> {
    var i := IndexOf(jobs, id);
    if i == -1 then jobs else jobs[i := Failed(jobs[i], error, now)]
  }

  predicate Stale(job: Job, now: int) {
    job.status == Running && (job.leaseUntil == None || job.leaseUntil.value < now)
  }

  function Recovered(job: Job, now: int): Job {
    if Stale(job, now) then job.(status := Pending, leaseUntil := None, worker := None) else job
  }

  function Recover(jobs: seq<Job>, now: int): (r: seq<Job>)
    ensures |r| == |jobs|
    ensures forall i :: 0 <= i < |jobs| ==> r[i] == Recovered(jobs[i], now)
  {
    seq(|jobs|, i requires 0 <= i < |jobs| => Recovered(jobs[i], now))
  }

  /** The lease is given up and the job keeps who asked for it, how urgently and how often it ran. */
  predicate Released(before: Job, after: Job) {
    && after.id == before.id && after.storeKey == before.storeKey && after.attempts == before.attempts
    && after.priority == before.priority && after.origin == before.origin
    && after.leaseUntil == None && after.worker == None
  }

  /** The table itself. */
  class Table {
    var jobs: seq<Job>

    constructor ()
      ensures jobs == []
    {
      jobs := [];
    }

    method EnqueueJob(storeKey: string, priority: int, origin: Origin, newId: string,
                      now: int) returns (id: Option<string>)
      modifies this
      ensures jobs == Enqueue(old(jobs), storeKey, priority, origin, newId, now)
      ensures id == (var i := PendingIndex(old(jobs), storeKey, |old(jobs)|);
                     if i >= 0 then Some(old(jobs)[i].id) else if IndexOf(old(jobs), newId) >= 0 then None else Some(newId))
    {
      var i := PendingIndex(jobs, storeKey, |jobs|);
      if i >= 0 {
        id := Some(jobs[i].id);
        if priority > jobs[i].priority {
          jobs := jobs[i := jobs[i].(priority := priority, origin := origin)];
        }
        return;
      }
      if IndexOf(jobs, newId) >= 0 { return None; }
      jobs := jobs + [Job(newId, storeKey, Pending, 0, now, priority, origin, None, None, None)];
      id := Some(newId);
    }

    method ClaimNext(now: int, minPriority: Option<int>, leaseMs: nat, worker: string) returns (claim: Option<Job>)
      modifies this
      ensures var i := ClaimIndex(old(jobs), now, minPriority, |old(jobs)|);
              && jobs == Claim(old(jobs), i, now + leaseMs, worker)
              && claim == if i == -1 then None else Some(Claimed(old(jobs)[i], now + leaseMs, worker))
    {
      var best := ClaimIndex(jobs, now, minPriority, |jobs|);
      if best == -1 { return None; }
      claim := Some(Claimed(jobs[best], now + leaseMs, worker));
      jobs := jobs[best := claim.value];
    }

    /** The job is done and nobody holds it; everything else about it, and every other job, stays. */
    method CompleteJob(id: string)
      modifies this
      ensures |jobs| == |old(jobs)|
      ensures forall k :: 0 <= k < |jobs| && k != IndexOf(old(jobs), id) ==> jobs[k] == old(jobs)[k]
      ensures var i := IndexOf(old(jobs), id);
              i >= 0 ==> jobs[i].status == Done && Released(old(jobs)[i], jobs[i]) && jobs[i].error == old(jobs)[i].error
                         && jobs[i].nextAttemptAt == old(jobs)[i].nextAttemptAt
    {
      var i := IndexOf(jobs, id);
      if i >= 0 { jobs := jobs[i := Completed(jobs[i])]; }
    }

    method FailJob(id: string, error: string, now: int)
      modifies this
      ensures jobs == Fail(old(jobs), id, error, now)
    {
      var i := IndexOf(jobs, id);
      if i == -1 { return; }
      var job := jobs[i].(error := Some(error), leaseUntil := None, worker := None);
      if job.attempts >= MAX_ATTEMPTS {
        jobs := jobs[i := job.(status := Dead)];
        return;
      }
      jobs := jobs[i := job.(status := Pending, nextAttemptAt := now + Backoff(job.attempts))];
    }

    /** Claims whose lease is missing or over go back to pending with their history; all other
        rows stay. */
    method RecoverStaleJobs(now: int) returns (changes: nat)
      modifies this
      ensures |jobs| == |old(jobs)|
      ensures forall k :: 0 <= k < |jobs| ==>
                var was := old(jobs)[k];
                if was.status == Running && (was.leaseUntil.Some? ==> was.leaseUntil.value < now)
                then jobs[k].status == Pending && Released(was, jobs[k]) && jobs[k].error == was.error
                     && jobs[k].nextAttemptAt == was.nextAttemptAt
                else jobs[k] == was
      ensures changes == |set k | 0 <= k < |jobs| && jobs[k] != old(jobs)[k]|
    {
      changes := |set k | 0 <= k < |jobs| && Stale(jobs[k], now)|;
      jobs := Recover(jobs, now);
      assert (set k | 0 <= k < |jobs| && Stale(old(jobs)[k], now)) == set k | 0 <= k < |jobs| && jobs[k] != old(jobs)[k];
    }
  }
}
