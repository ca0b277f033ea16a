/**
 What the job table and the lane do to single rows, in the numbers of the design.
 */
module JobProofs {
  import opened Tables
  import opened JobQueue
  import opened Lane
  import opened LaneProofs

  // ----- Enqueue

  ghost predicate WaitsFor(job: Job, storeKey: string) { job.storeKey == storeKey && job.status == Pending }

  ghost predicate FirstWaiting(jobs: seq<Job>, storeKey: string, i: int) {
    0 <= i < |jobs| && WaitsFor(jobs[i], storeKey) && forall n :: 0 <= n < i ==> !WaitsFor(jobs[n], storeKey)
  }

  /** The waiting row takes the new priority and its origin if that is higher, and nothing else. */
  ghost predicate Coalesced(was: Job, job: Job, priority: int, origin: Origin) {
    && job == was.(priority := job.priority, origin := job.origin)
    && job.priority >= priority && job.priority >= was.priority
    && (job.priority == was.priority || job.priority == priority)
    && job.origin == if priority > was.priority then origin else was.origin
  }

  lemma EnqueueCoalesces(jobs: seq<Job>, storeKey: string, priority: int, origin: Origin, newId: string, now: int, i: int)
    requires FirstWaiting(jobs, storeKey, i)
    ensures var d := Enqueue(jobs, storeKey, priority, origin, newId, now);
            && |d| == |jobs|
            && (forall k :: 0 <= k < |d| && k != i ==> d[k] == jobs[k])
            && Coalesced(jobs[i], d[i], priority, origin)
  {
    var first := PendingIndex(jobs, storeKey, |jobs|);
    assert WaitsFor(jobs[i], storeKey);
    assert first >= i;
  }

  /** Without a waiting row the job is added last, due at once and never claimed. */
  lemma EnqueueInserts(jobs: seq<Job>, storeKey: string, priority: int, origin: Origin, newId: string, now: int)
    requires forall i :: 0 <= i < |jobs| ==> !WaitsFor(jobs[i], storeKey) && jobs[i].id != newId
    ensures Enqueue(jobs, storeKey, priority, origin, newId, now)
            == jobs + [Job(newId, storeKey, Pending, 0, now, priority, origin, None, None, None)]
  {
    var i := PendingIndex(jobs, storeKey, |jobs|);
    if i >= 0 { assert WaitsFor(jobs[i], storeKey); }
  }

  // ----- Claim

  /** Waiting and due, or claimed by a worker whose lease is missing or over; at or above the
      floor, if there is one. */
  ghost predicate Free(job: Job, now: int, floor: Option<int>) {
    && (floor == None || floor.value <= job.priority)
    && match job.status
       case Pending => !(now < job.nextAttemptAt)
       case Running => job.leaseUntil.Some? ==> job.leaseUntil.value < now
       case Done | Dead => false
  }

  /** More urgent; as urgent and due earlier; or tied in both and enqueued earlier. */
  ghost predicate Outranks(a: Job, i: int, b: Job, n: int) {
    if a.priority != b.priority then a.priority > b.priority
    else if a.nextAttemptAt != b.nextAttemptAt then a.nextAttemptAt < b.nextAttemptAt
    else i < n
  }

  ghost predicate First(jobs: seq<Job>, now: int, floor: Option<int>, i: int) {
    && 0 <= i < |jobs| && Free(jobs[i], now, floor)
    && forall n :: 0 <= n < |jobs| && n != i && Free(jobs[n], now, floor) ==> Outranks(jobs[i], i, jobs[n], n)
  }

  ghost predicate NoneFree(jobs: seq<Job>, now: int, floor: Option<int>) {
    forall n :: 0 <= n < |jobs| ==> !Free(jobs[n], now, floor)
  }

  lemma FreeIsReady(job: Job, now: int, floor: Option<int>)
    ensures Free(job, now, floor) <==> Ready(job, now, floor)
  {
  }

  lemma OneFirst(jobs: seq<Job>, now: int, floor: Option<int>, i: int, c: int)
    requires First(jobs, now, floor, c) && i != c
    ensures !First(jobs, now, floor, i)
  {
    if 0 <= i < |jobs| && Free(jobs[i], now, floor) { assert Outranks(jobs[c], c, jobs[i], i); }
  }

  /** The row to claim is the first free one, for one row only, and there is none exactly when no
      row is free. */
  lemma ClaimIndexExactly(jobs: seq<Job>, now: int, floor: Option<int>, i: int)
    ensures ClaimIndex(jobs, now, floor, |jobs|) == i <==> First(jobs, now, floor, i) || (i == -1 && NoneFree(jobs, now, floor))
  {
    var c := ClaimIndex(jobs, now, floor, |jobs|);
    forall n | 0 <= n < |jobs| ensures Free(jobs[n], now, floor) <==> Ready(jobs[n], now, floor) {
      FreeIsReady(jobs[n], now, floor);
    }
    if c >= 0 {
      assert First(jobs, now, floor, c);
      assert !NoneFree(jobs, now, floor);
      if i != c { OneFirst(jobs, now, floor, i, c); }
    } else {
      assert NoneFree(jobs, now, floor);
    }
  }

  // ----- Failure

  /** The wait after the given number of claims, in milliseconds. */
  ghost function Wait(claims: nat): nat {
    match claims
    case 0 => 15_000
    case 1 => 30_000
    case 2 => 60_000
    case 3 => 120_000
    case 4 => 240_000
    case 5 => 480_000
    case _ => 900_000
  }

  lemma BackoffIsWait(claims: nat)
    requires claims < 8
    ensures Backoff(claims) == Wait(claims)
  {
    assert Pow2(0) == 1 && Pow2(1) == 2 && Pow2(2) == 4 && Pow2(3) == 8 && Pow2(4) == 16 && Pow2(5) == 32 && Pow2(6) == 64;
    if claims == 7 { assert Pow2(claims - 1) == 64; }
  }

  /** The failure is recorded and the lease given up; at the eighth claim the job is dead, before
      it waits its turn again. */
  lemma FailOutcome(jobs: seq<Job>, id: string, error: string, now: int, i: int)
    requires 0 <= i < |jobs| && jobs[i].id == id && forall k :: 0 <= k < |jobs| && k != i ==> jobs[k].id != id
    ensures var d := Fail(jobs, id, error, now);
            && |d| == |jobs|
            && (forall k :: 0 <= k < |d| && k != i ==> d[k] == jobs[k])
            && d[i].error == Some(error)
            && Released(jobs[i], d[i])
            && (if jobs[i].attempts >= 8 then d[i].status == Dead && d[i].nextAttemptAt == jobs[i].nextAttemptAt
                else d[i].status == Pending && d[i].nextAttemptAt == now + Wait(jobs[i].attempts))
  {
    assert IndexOf(jobs, id) == i;
    if jobs[i].attempts < 8 { BackoffIsWait(jobs[i].attempts); }
  }

  // ----- The lane

  /** The row a step claims, and what it writes there. */
  ghost predicate Claims(s: Sys, d: Sys, floor: Option<int>, i: int) {
    && First(s.jobs, s.now, floor, i)
    && d.claims == s.claims + [s.jobs[i].id]
    && d.jobs == s.jobs[i := s.jobs[i].(status := Running, attempts := s.jobs[i].attempts + 1,
                                        leaseUntil := Some(s.now + s.leaseMs), worker := Some(s.worker))]
  }

  /** The step claims the first row free to it, or there is none and nothing is claimed. */
  ghost predicate ClaimsFirst(s: Sys, d: Sys, floor: Option<int>) {
    || (exists i :: Claims(s, d, floor, i))
    || (NoneFree(s.jobs, s.now, floor) && d.claims == s.claims && d.jobs == s.jobs)
  }

  lemma ClaimForFirst(s: Sys, floor: Option<int>, work: Work)
    ensures ClaimsFirst(s, ClaimFor(s, floor, work), floor)
  {
    var i := ClaimIndex(s.jobs, s.now, floor, |s.jobs|);
    ClaimIndexExactly(s.jobs, s.now, floor, i);
    if i >= 0 { assert Claims(s, ClaimFor(s, floor, work), floor, i); }
  }

  /** The wake pass that a step begins or continues goes into this round. */
  ghost function WakeRoundOf(s: Sys, e: Event): Option<nat> {
    match e
    case WakeCall => if !s.stopping && !s.inFlight then Some(0) else None
    case GoRound(k) =>
      if k < |s.tasks| && s.tasks[k].stage.AtRound? && s.tasks[k].work.Wake? && !s.stopping then Some(s.tasks[k].work.i + 1) else None
    case Release(k) => if k < |s.tasks| && s.tasks[k].stage.AtRelease? && s.wakeRequested && !s.stopping then Some(0) else None
    case _ => None
  }

  /** A timed drain claims the first free row of any priority. A round of a wake pass, short of
      the fiftieth, claims the first free row asked for explicitly. No other step claims. */
  lemma StepClaims(s: Sys, e: Event)
    requires Exclusive(s)
    ensures var d := Next(s, e);
            if e.Tick? && !s.stopping && !s.inFlight then ClaimsFirst(s, d, None)
            else if WakeRoundOf(s, e).Some? && WakeRoundOf(s, e).value < 50 then ClaimsFirst(s, d, Some(10))
            else d.claims == s.claims
  {
    match e
    case Tick =>
      if LaneFree(s) {
        ClaimForFirst(s.(inFlight := true), None, Drain);
        SameTable(s, s.(inFlight := true), Next(s, e), None);
      }
    case WakeCall => if LaneFree(s) { WakeClaims(s, s.(inFlight := true, wakeScans := s.wakeScans + 1), 0); }
    case GoRound(k) =>
      if WakeRoundOf(s, e).Some? { WakeClaims(s, WithoutTask(s, k), s.tasks[k].work.i + 1); }
    case Release(k) =>
      if WakeRoundOf(s, e).Some? {
        WakeClaims(s, WithoutTask(s, k).(inFlight := true, wakeRequested := false, wakeScans := s.wakeScans + 1), 0);
      }
    case _ =>
  }

  ghost predicate SameClaiming(s: Sys, t: Sys) {
    s.jobs == t.jobs && s.now == t.now && s.claims == t.claims && s.leaseMs == t.leaseMs && s.worker == t.worker
  }

  lemma SameTable(s: Sys, t: Sys, d: Sys, floor: Option<int>)
    requires SameClaiming(s, t) && ClaimsFirst(t, d, floor)
    ensures ClaimsFirst(s, d, floor)
  {
    if exists i :: Claims(t, d, floor, i) {
      var i :| Claims(t, d, floor, i);
      assert Claims(s, d, floor, i);
    }
  }

  lemma WakeClaims(s: Sys, t: Sys, i: nat)
    requires SameClaiming(s, t)
    ensures !t.stopping && i < 50 ==> ClaimsFirst(s, WakeRound(t, i), Some(10))
    ensures t.stopping || i >= 50 ==> WakeRound(t, i).claims == s.claims
  {
    ClaimForFirst(t, Some(10), Wake(i));
    SameTable(s, t, ClaimFor(t, Some(10), Wake(i)), Some(10));
  }

  /** A pass that returns completes its job: done, with nobody holding it. */
  lemma ReturnedPassCompletes(s: Sys, error: string, i: int)
    requires JobLive(s) && 0 <= i < |s.jobs| && s.jobs[i].id == s.tasks[0].stage.id
    requires forall k :: 0 <= k < |s.jobs| && k != i ==> s.jobs[k].id != s.jobs[i].id
    ensures var d := Next(s, Settle(0, true, error));
            d.jobs == s.jobs[i := s.jobs[i].(status := Done, leaseUntil := None, worker := None)]
  {
    assert IndexOf(s.jobs, s.jobs[i].id) == i;
  }

  /** A worker that starts takes back every claim whose lease is missing or over, keeping its
      history, leaves all other rows, and holds nothing itself. */
  lemma RestartRecovers(s: Sys, worker: string)
    ensures var d := Next(s, Restart(worker));
            && d == s.(jobs := d.jobs, worker := worker, stopping := false, inFlight := false, wakeRequested := false, tasks := [],
                       abandoned := d.abandoned, crashes := d.crashes)
            && |d.jobs| == |s.jobs|
            && forall k :: 0 <= k < |d.jobs| ==>
                 if s.jobs[k].status == Running && (s.jobs[k].leaseUntil.Some? ==> s.jobs[k].leaseUntil.value < s.now)
                 then d.jobs[k] == s.jobs[k].(status := Pending, leaseUntil := None, worker := None) else d.jobs[k] == s.jobs[k]
  {
  }
}
