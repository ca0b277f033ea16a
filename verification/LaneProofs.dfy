/**
 Safety of the lane over every interleaving of timers, wakes, job ends, shutdowns and
 process crashes; no wake is lost; and the bounds on retries and on open rows.

 The first part rests on one invariant, `Exclusive`, the last on another, `Bounded`, each
 kept by every event; `Bounded` has one lemma for each kind of event. The history fields
 of `Lane.Sys` say how often a job was claimed and how many claims died with a process.
 */
module LaneProofs {
  import opened Tables
  import opened JobQueue
  import opened Lane

  // ----- One body at a time

  ghost predicate Exclusive(s: Sys) {
    && |s.tasks| <= 1
    && (s.inFlight <==> |s.tasks| == 1)
    && (s.wakeRequested ==> s.inFlight || s.stopping)
    && (|s.tasks| == 1 && s.tasks[0].stage == AtRound ==> s.tasks[0].work.Wake?)
  }

  predicate JobLive(s: Sys) { |s.tasks| == 1 && s.tasks[0].stage.AtJob? }

  /** What a step adds to the claims: nothing, or the job its one body now runs. */
  ghost predicate ClaimsStep(s: Sys, d: Sys) {
    || d.claims == s.claims
    || (!d.stopping && d.inFlight && JobLive(d) && d.claims == s.claims + [d.tasks[0].stage.id])
  }

  lemma ClaimForExclusive(s: Sys, minPriority: Option<int>, work: Work)
    requires s.tasks == [] && s.inFlight && !s.stopping
    ensures var d := ClaimFor(s, minPriority, work); Exclusive(d) && ClaimsStep(s, d)
  {
  }

  lemma WakeRoundExclusive(s: Sys, i: nat)
    requires s.tasks == [] && s.inFlight
    ensures var d := WakeRound(s, i);
            Exclusive(d) && ClaimsStep(s, d) && d.stopping == s.stopping && d.wakeRequested == s.wakeRequested
  {
    if !(i >= MAX_WAKE_DRAIN_PER_CALL || s.stopping) { ClaimForExclusive(s, Some(PRIORITY_EXPLICIT), Wake(i)); }
  }

  lemma GoRoundExclusive(s: Sys, k: nat)
    requires Exclusive(s)
    ensures var d := Next(s, GoRound(k));
            Exclusive(d) && ClaimsStep(s, d) && d.stopping == s.stopping && (JobLive(s) || s.stopping ==> d.claims == s.claims)
  {
    if k < |s.tasks| && s.tasks[k].stage.AtRound? && s.tasks[k].work.Wake? {
      WakeRoundExclusive(WithoutTask(s, k), s.tasks[k].work.i + 1);
    }
  }

  lemma ReleaseExclusive(s: Sys, k: nat)
    requires Exclusive(s)
    ensures var d := Next(s, Release(k));
            Exclusive(d) && ClaimsStep(s, d) && d.stopping == s.stopping && (JobLive(s) || s.stopping ==> d.claims == s.claims)
  {
    if k < |s.tasks| && s.tasks[k].stage.AtRelease? {
      var r := WithoutTask(s, k).(inFlight := false);
      if r.wakeRequested && !r.stopping {
        WakeRoundExclusive(r.(wakeRequested := false, inFlight := true, wakeScans := r.wakeScans + 1), 0);
      }
    }
  }

  /** Every event keeps the lane exclusive, and claims only for the body that holds it,
      never while stopping, and never while a claimed job is still running. */
  lemma NextExclusive(s: Sys, e: Event)
    requires Exclusive(s)
    ensures var d := Next(s, e);
            && Exclusive(d)
            && ClaimsStep(s, d)
            && (JobLive(s) ==> d.claims == s.claims)
            && (s.stopping && !e.Restart? ==> d.claims == s.claims && d.stopping)
  {
    match e
    case Tick => if LaneFree(s) { ClaimForExclusive(s.(inFlight := true), None, Drain); }
    case WakeCall => if LaneFree(s) { WakeRoundExclusive(s.(inFlight := true, wakeScans := s.wakeScans + 1), 0); }
    case GoRound(k) => GoRoundExclusive(s, k);
    case Release(k) => ReleaseExclusive(s, k);
    case Settle(_, _, _) =>
    case StopCall =>
    case Restart(_) =>
    case EnqueueCall(_, _, _, _) =>
    case Clock(_) =>
  }

  lemma {:induction false} RunExclusive(now: int, leaseMs: nat, worker: string, events: seq<Event>)
    ensures Exclusive(Run(Initial(now, leaseMs, worker), events))
  {
    if events != [] {
      RunExclusive(now, leaseMs, worker, events[..|events| - 1]);
      NextExclusive(Run(Initial(now, leaseMs, worker), events[..|events| - 1]), events[|events| - 1]);
    }
  }

  lemma {:induction false} RunAppend(s: Sys, a: seq<Event>, b: seq<Event>)
    ensures Run(s, a + b) == Run(Run(s, a), b)
  {
    if b == [] {
      assert a + b == a;
    } else {
      RunAppend(s, a, b[..|b| - 1]);
      assert (a + b)[..|a + b| - 1] == a + b[..|b| - 1];
    }
  }

  ghost predicate NoRestart(events: seq<Event>) {
    forall i :: 0 <= i < |events| ==> !events[i].Restart?
  }

  /** Once stop() has been called, this process claims nothing more. */
  lemma {:induction false} StoppedClaimsNothing(s: Sys, events: seq<Event>)
    requires Exclusive(s) && s.stopping && NoRestart(events)
    ensures var d := Run(s, events); Exclusive(d) && d.stopping && d.claims == s.claims
  {
    if events != [] {
      StoppedClaimsNothing(s, events[..|events| - 1]);
      NextExclusive(Run(s, events[..|events| - 1]), events[|events| - 1]);
    }
  }

  ghost predicate Unsettled(events: seq<Event>) {
    forall i :: 0 <= i < |events| ==> !events[i].Settle? && !events[i].Restart?
  }

  /** While a claimed job's pass runs - however long, and whether or not its lease has
      expired meanwhile - this process claims nothing, so in particular not that row. */
  lemma {:induction false} RunningJobNotReclaimed(s: Sys, events: seq<Event>)
    requires Exclusive(s) && JobLive(s) && Unsettled(events)
    ensures var d := Run(s, events); Exclusive(d) && d.tasks == s.tasks && d.claims == s.claims
  {
    if events != [] {
      RunningJobNotReclaimed(s, events[..|events| - 1]);
      NextExclusive(Run(s, events[..|events| - 1]), events[|events| - 1]);
    }
  }

  // ----- No wake is lost

  ghost predicate Undisturbed(events: seq<Event>) {
    forall i :: 0 <= i < |events| ==> !events[i].StopCall? && !events[i].Restart?
  }

  /** After wake(), until a wake pass begins or the worker stops, the request stays latched
      behind a body that holds the lane. */
  ghost predicate Owed(s: Sys) { s.wakeRequested && s.inFlight && !s.stopping }

  /** Uninterrupted stretches the body holding the lane can still take before release. */
  function StepsLeft(t: Task): nat {
    match t.stage
    case AtRelease => 1
    case AtRound => 2 + (if t.work.Wake? && t.work.i < MAX_WAKE_DRAIN_PER_CALL then 2 * (MAX_WAKE_DRAIN_PER_CALL - t.work.i) else 0)
    case AtJob(_) => 3 + (if t.work.Wake? && t.work.i < MAX_WAKE_DRAIN_PER_CALL then 2 * (MAX_WAKE_DRAIN_PER_CALL - t.work.i) else 0)
  }

  /** The event advances the body holding the lane. */
  predicate Advances(s: Sys, e: Event) {
    |s.tasks| == 1 && match e
      case Settle(k, _, _) => k == 0 && s.tasks[0].stage.AtJob?
      case GoRound(k) => k == 0 && s.tasks[0].stage.AtRound? && s.tasks[0].work.Wake?
      case Release(k) => k == 0 && s.tasks[0].stage.AtRelease?
      case _ => false
  }

  function Advanced(s: Sys, events: seq<Event>): nat {
    if events == [] then 0
    else
      var front, e := events[..|events| - 1], events[|events| - 1];
      Advanced(s, front) + if Advances(Run(s, front), e) then 1 else 0
  }

  lemma OwedStep(s: Sys, e: Event)
    requires Exclusive(s) && Owed(s) && !e.StopCall? && !e.Restart?
    ensures var d := Next(s, e);
            || d.wakeScans > s.wakeScans
            || (Owed(d) && d.wakeScans == s.wakeScans
                && (if Advances(s, e) then StepsLeft(d.tasks[0]) < StepsLeft(s.tasks[0]) else d.tasks == s.tasks))
  {
  }

  lemma ScansGrow(s: Sys, e: Event)
    ensures Next(s, e).wakeScans >= s.wakeScans
  {
  }

  /** Since `s0` a wake pass has begun, or the request is still latched and the body in
      its way is at least `n` stretches nearer its release. */
  ghost predicate Progressing(s0: Sys, s: Sys, n: nat) {
    || s.wakeScans > s0.wakeScans
    || (Owed(s) && |s.tasks| == 1 && |s0.tasks| == 1 && n + StepsLeft(s.tasks[0]) <= StepsLeft(s0.tasks[0]))
  }

  lemma ProgressStep(s0: Sys, s: Sys, e: Event, n: nat)
    requires Exclusive(s) && Progressing(s0, s, n) && s.wakeScans >= s0.wakeScans && !e.StopCall? && !e.Restart?
    ensures Exclusive(Next(s, e)) && Next(s, e).wakeScans >= s.wakeScans
    ensures Progressing(s0, Next(s, e), n + if Advances(s, e) then 1 else 0)
  {
    NextExclusive(s, e);
    ScansGrow(s, e);
    if s.wakeScans == s0.wakeScans { OwedStep(s, e); }
  }

  lemma {:induction false} OwedUntilServed(s: Sys, events: seq<Event>, d: Sys)
    requires Exclusive(s) && Owed(s) && Undisturbed(events) && d == Run(s, events)
    ensures Exclusive(d) && d.wakeScans >= s.wakeScans && Progressing(s, d, Advanced(s, events))
  {
    if events != [] {
      var front := events[..|events| - 1];
      OwedUntilServed(s, front, Run(s, front));
      ProgressStep(s, Run(s, front), events[|events| - 1], Advanced(s, front));
    }
  }

  /** Every wake of a running worker is followed by a wake pass over the queue: at once
      when the lane is free, otherwise after at most 103 further stretches of the body
      that holds it, whatever else happens in between short of a shutdown. */
  lemma WakeIsServed(s: Sys, events: seq<Event>)
    requires Exclusive(s) && !s.stopping && Undisturbed(events)
    requires Advanced(Next(s, WakeCall), events) >= 103
    ensures Run(Next(s, WakeCall), events).wakeScans > s.wakeScans
  {
    NextExclusive(s, WakeCall);
    var d := Next(s, WakeCall);
    if s.inFlight {
      OwedUntilServed(d, events, Run(d, events));
    } else {
      ScansNeverShrink(d, events);
    }
  }

  lemma {:induction false} ScansNeverShrink(s: Sys, events: seq<Event>)
    ensures Run(s, events).wakeScans >= s.wakeScans
  {
    if events != [] {
      ScansNeverShrink(s, events[..|events| - 1]);
      ScansGrow(Run(s, events[..|events| - 1]), events[|events| - 1]);
    }
  }

  // ----- Bounds on retries and on open rows

  function CountRunning(jobs: seq<Job>): nat {
    if jobs == [] then 0
    else CountRunning(jobs[..|jobs| - 1]) + if jobs[|jobs| - 1].status == Running then 1 else 0
  }

  predicate OpenFor(job: Job, storeKey: string) {
    job.storeKey == storeKey && (job.status == Pending || job.status == Running)
  }

  /** Pending and running rows of a store. */
  function CountOpen(jobs: seq<Job>, storeKey: string): nat {
    if jobs == [] then 0
    else CountOpen(jobs[..|jobs| - 1], storeKey) + if OpenFor(jobs[|jobs| - 1], storeKey) then 1 else 0
  }

  function One(b: bool): nat { if b then 1 else 0 }

  lemma {:induction false} CountRunningUpdate(jobs: seq<Job>, i: nat, job: Job)
    requires i < |jobs|
    ensures CountRunning(jobs[i := job]) == CountRunning(jobs) - One(jobs[i].status == Running) + One(job.status == Running)
  {
    var m := |jobs| - 1;
    if i == m {
      assert jobs[i := job][..m] == jobs[..m];
    } else {
      CountRunningUpdate(jobs[..m], i, job);
      assert jobs[i := job][..m] == jobs[..m][i := job];
    }
  }

  lemma {:induction false} CountOpenUpdate(jobs: seq<Job>, i: nat, job: Job, storeKey: string)
    requires i < |jobs|
    ensures CountOpen(jobs[i := job], storeKey)
            == CountOpen(jobs, storeKey) - One(OpenFor(jobs[i], storeKey)) + One(OpenFor(job, storeKey))
  {
    var m := |jobs| - 1;
    if i == m {
      assert jobs[i := job][..m] == jobs[..m];
    } else {
      CountOpenUpdate(jobs[..m], i, job, storeKey);
      assert jobs[i := job][..m] == jobs[..m][i := job];
    }
  }

  lemma CountAppend(jobs: seq<Job>, job: Job, storeKey: string)
    ensures CountRunning(jobs + [job]) == CountRunning(jobs) + One(job.status == Running)
    ensures CountOpen(jobs + [job], storeKey) == CountOpen(jobs, storeKey) + One(OpenFor(job, storeKey))
  {
    assert (jobs + [job])[..|jobs|] == jobs;
  }

  lemma {:induction false} RecoverCounts(jobs: seq<Job>, now: int, storeKey: string)
    ensures CountRunning(Recover(jobs, now)) <= CountRunning(jobs)
    ensures CountOpen(Recover(jobs, now), storeKey) == CountOpen(jobs, storeKey)
  {
    if jobs != [] {
      RecoverCounts(jobs[..|jobs| - 1], now, storeKey);
      assert Recover(jobs, now)[..|jobs| - 1] == Recover(jobs[..|jobs| - 1], now);
    }
  }

  /** With no pending row, a store's open rows are running rows. */
  lemma {:induction false} OpenAreRunning(jobs: seq<Job>, storeKey: string)
    requires forall i :: 0 <= i < |jobs| ==> !(jobs[i].storeKey == storeKey && jobs[i].status == Pending)
    ensures CountOpen(jobs, storeKey) <= CountRunning(jobs)
  {
    if jobs != [] { OpenAreRunning(jobs[..|jobs| - 1], storeKey); }
  }

  /** How often a claim of this row died with its process. */
  function Abandons(s: Sys, id: string): nat { multiset(s.abandoned)[id] }

  function Claims(s: Sys, id: string): nat { multiset(s.claims)[id] }

  predicate LiveFor(s: Sys, id: string) { JobLive(s) && s.tasks[0].stage.id == id }

  ghost predicate DistinctJobs(jobs: seq<Job>) {
    forall i, j :: 0 <= i < j < |jobs| ==> jobs[i].id != jobs[j].id
  }

  /** One row's bounds. The row a body is running may be at its last allowed attempt; a
      row waiting to be claimed has one to go, give or take abandoned claims. */
  ghost predicate RowBounded(s: Sys, job: Job) {
    && job.attempts == Claims(s, job.id)
    && job.attempts <= MAX_ATTEMPTS + Abandons(s, job.id)
    && ((job.status == Pending || job.status == Running) && !LiveFor(s, job.id) ==>
          job.attempts + 1 <= MAX_ATTEMPTS + Abandons(s, job.id))
    && (job.status == Dead ==> job.attempts >= MAX_ATTEMPTS)
  }

  ghost predicate RowsBounded(s: Sys) {
    forall i :: 0 <= i < |s.jobs| ==> RowBounded(s, s.jobs[i])
  }

  /** The job a body is running was claimed and has its row, marked running. */
  ghost predicate LiveRow(s: Sys) {
    JobLive(s) ==>
      var id := s.tasks[0].stage.id;
      Claims(s, id) >= 1 && IndexOf(s.jobs, id) >= 0 && s.jobs[IndexOf(s.jobs, id)].status == Running
  }

  ghost predicate NewIdsUnseen(s: Sys) {
    && (forall i :: 0 <= i < |s.claims| ==> IndexOf(s.jobs, s.claims[i]) >= 0)
    && (forall i :: 0 <= i < |s.abandoned| ==> IndexOf(s.jobs, s.abandoned[i]) >= 0)
  }

  ghost predicate CountsBounded(s: Sys) {
    && CountRunning(s.jobs) <= s.crashes + One(JobLive(s))
    && forall key :: CountOpen(s.jobs, key) <= 2 + s.crashes
  }

  ghost predicate Bounded(s: Sys) {
    DistinctJobs(s.jobs) && RowsBounded(s) && LiveRow(s) && NewIdsUnseen(s) && CountsBounded(s)
  }

  /** The bounds look only at the table, the history and the job being run. */
  lemma BoundedMoves(s: Sys, d: Sys)
    requires Bounded(s) && d.jobs == s.jobs && d.claims == s.claims && d.abandoned == s.abandoned && d.crashes == s.crashes
    requires JobLive(d) == JobLive(s) && (JobLive(s) ==> d.tasks[0].stage == s.tasks[0].stage)
    ensures Bounded(d)
  {
    forall i | 0 <= i < |d.jobs| ensures RowBounded(d, d.jobs[i]) {
      assert RowBounded(s, s.jobs[i]);
    }
  }

  lemma SameIdsSeen(s: Sys, d: Sys)
    requires NewIdsUnseen(s) && |d.jobs| >= |s.jobs| && forall k :: 0 <= k < |s.jobs| ==> d.jobs[k].id == s.jobs[k].id
    ensures forall i :: 0 <= i < |s.claims| ==> IndexOf(d.jobs, s.claims[i]) >= 0
    ensures forall i :: 0 <= i < |s.abandoned| ==> IndexOf(d.jobs, s.abandoned[i]) >= 0
  {
    forall id | IndexOf(s.jobs, id) >= 0 ensures IndexOf(d.jobs, id) >= 0 {
      assert d.jobs[IndexOf(s.jobs, id)].id == id;
    }
  }

  lemma RowsClaimed(s: Sys, d: Sys, i: nat, row: Job)
    requires RowsBounded(s) && DistinctJobs(s.jobs) && s.tasks == [] && i < |s.jobs|
    requires row.id == s.jobs[i].id && row.attempts == s.jobs[i].attempts + 1 && row.status == Running
    requires s.jobs[i].status == Pending || s.jobs[i].status == Running
    requires d.jobs == s.jobs[i := row] && d.claims == s.claims + [row.id] && d.abandoned == s.abandoned && LiveFor(d, row.id)
    ensures RowsBounded(d)
  {
    assert RowBounded(s, s.jobs[i]);
    forall k | 0 <= k < |d.jobs| ensures RowBounded(d, d.jobs[k]) {
      assert RowBounded(s, s.jobs[k]);
      assert k != i ==> s.jobs[k].id != row.id;
    }
  }

  /** Replacing a row opens no row, and no more rows run than bodies were started. */
  lemma CountsReplaced(s: Sys, d: Sys, i: nat, row: Job)
    requires CountsBounded(s) && i < |s.jobs| && row.storeKey == s.jobs[i].storeKey
    requires d.jobs == s.jobs[i := row] && d.crashes == s.crashes
    requires row.status == Pending || row.status == Running ==> s.jobs[i].status == Pending || s.jobs[i].status == Running
    requires One(row.status == Running) + One(JobLive(s)) <= One(s.jobs[i].status == Running) + One(JobLive(d))
    ensures CountsBounded(d)
  {
    CountRunningUpdate(s.jobs, i, row);
    forall key ensures CountOpen(d.jobs, key) <= 2 + d.crashes {
      CountOpenUpdate(s.jobs, i, row, key);
    }
  }

  lemma SeenClaimed(s: Sys, d: Sys, i: nat, row: Job)
    requires NewIdsUnseen(s) && DistinctJobs(s.jobs) && i < |s.jobs| && row.id == s.jobs[i].id && row.status == Running
    requires d.jobs == s.jobs[i := row] && d.claims == s.claims + [row.id] && d.abandoned == s.abandoned && LiveFor(d, row.id)
    ensures NewIdsUnseen(d) && LiveRow(d)
  {
    SameIdsSeen(s, d);
    LiveRowAt(d, i, row.id);
    forall n | 0 <= n < |d.claims| ensures IndexOf(d.jobs, d.claims[n]) >= 0 {
      if n < |s.claims| { assert d.claims[n] == s.claims[n]; }
    }
  }

  lemma ClaimForRow(s: Sys, d: Sys, minPriority: Option<int>, work: Work, i: int, row: Job)
    requires s.tasks == [] && d == ClaimFor(s, minPriority, work)
    requires i == ClaimIndex(s.jobs, s.now, minPriority, |s.jobs|) && i >= 0 && row == Claimed(s.jobs[i], s.now + s.leaseMs, s.worker)
    ensures d == s.(jobs := s.jobs[i := row], claims := s.claims + [row.id], tasks := [Task(work, AtJob(row.id))])
    ensures s.jobs[i].status == Pending || s.jobs[i].status == Running
  {
  }

  lemma ClaimBounded(s: Sys, d: Sys, minPriority: Option<int>, work: Work)
    requires Bounded(s) && s.tasks == [] && d == ClaimFor(s, minPriority, work)
    ensures Bounded(d)
  {
    var i := ClaimIndex(s.jobs, s.now, minPriority, |s.jobs|);
    if i == -1 {
      BoundedMoves(s, d);
    } else {
      var row := Claimed(s.jobs[i], s.now + s.leaseMs, s.worker);
      ClaimForRow(s, d, minPriority, work, i, row);
      ClaimedBounded(s, d, i, row);
    }
  }

  lemma ClaimedBounded(s: Sys, d: Sys, i: nat, row: Job)
    requires Bounded(s) && s.tasks == [] && i < |s.jobs|
    requires row.id == s.jobs[i].id && row.storeKey == s.jobs[i].storeKey && row.attempts == s.jobs[i].attempts + 1 && row.status == Running
    requires s.jobs[i].status == Pending || s.jobs[i].status == Running
    requires d.jobs == s.jobs[i := row] && d.claims == s.claims + [row.id] && d.abandoned == s.abandoned && d.crashes == s.crashes
    requires LiveFor(d, row.id)
    ensures Bounded(d)
  {
    RowsClaimed(s, d, i, row);
    CountsReplaced(s, d, i, row);
    SeenClaimed(s, d, i, row);
  }

  lemma LiveRowAt(s: Sys, i: nat, id: string)
    requires DistinctJobs(s.jobs) && i < |s.jobs| && s.jobs[i].id == id
    ensures IndexOf(s.jobs, id) == i
  {
  }

  lemma RowsSettled(s: Sys, d: Sys, i: nat, row: Job)
    requires RowsBounded(s) && DistinctJobs(s.jobs) && JobLive(s) && i < |s.jobs| && s.jobs[i].id == s.tasks[0].stage.id
    requires row.id == s.jobs[i].id && row.attempts == s.jobs[i].attempts
    requires row.status == Done || (row.status == Dead && row.attempts >= MAX_ATTEMPTS) || (row.status == Pending && row.attempts < MAX_ATTEMPTS)
    requires d.jobs == s.jobs[i := row] && d.claims == s.claims && d.abandoned == s.abandoned && !JobLive(d)
    ensures RowsBounded(d)
  {
    forall k | 0 <= k < |d.jobs| ensures RowBounded(d, d.jobs[k]) {
      assert RowBounded(s, s.jobs[k]);
    }
  }

  lemma SettleBounded(s: Sys, d: Sys, i: nat, row: Job)
    requires Bounded(s) && JobLive(s) && i < |s.jobs| && i == IndexOf(s.jobs, s.tasks[0].stage.id)
    requires row.id == s.jobs[i].id && row.storeKey == s.jobs[i].storeKey && row.attempts == s.jobs[i].attempts
    requires row.status == Done || (row.status == Dead && row.attempts >= MAX_ATTEMPTS) || (row.status == Pending && row.attempts < MAX_ATTEMPTS)
    requires d.jobs == s.jobs[i := row] && d.claims == s.claims && d.abandoned == s.abandoned && d.crashes == s.crashes
    requires !JobLive(d)
    ensures Bounded(d)
  {
    RowsSettled(s, d, i, row);
    CountsReplaced(s, d, i, row);
    SameIdsSeen(s, d);
  }

  lemma LiveJobsOfOne(s: Sys)
    requires Exclusive(s)
    ensures LiveJobs(s.tasks) == if JobLive(s) then [s.tasks[0].stage.id] else []
  {
    if |s.tasks| == 1 { assert s.tasks[..0] == []; }
  }

  lemma RowsRestarted(s: Sys, d: Sys)
    requires RowsBounded(s) && d.jobs == Recover(s.jobs, s.now) && d.claims == s.claims && d.tasks == []
    requires d.abandoned == s.abandoned + if JobLive(s) then [s.tasks[0].stage.id] else []
    ensures RowsBounded(d)
  {
    forall k | 0 <= k < |d.jobs| ensures RowBounded(d, d.jobs[k]) {
      assert RowBounded(s, s.jobs[k]);
    }
  }

  lemma SeenRestarted(s: Sys, d: Sys)
    requires NewIdsUnseen(s) && LiveRow(s) && d.jobs == Recover(s.jobs, s.now) && d.claims == s.claims
    requires d.abandoned == s.abandoned + if JobLive(s) then [s.tasks[0].stage.id] else []
    ensures NewIdsUnseen(d)
  {
    SameIdsSeen(s, d);
    forall n | 0 <= n < |d.abandoned| ensures IndexOf(d.jobs, d.abandoned[n]) >= 0 {
      if n < |s.abandoned| {
        assert d.abandoned[n] == s.abandoned[n];
      } else {
        assert d.jobs[IndexOf(s.jobs, s.tasks[0].stage.id)].id == d.abandoned[n];
      }
    }
  }

  lemma CountsRestarted(s: Sys, d: Sys)
    requires CountsBounded(s) && d.jobs == Recover(s.jobs, s.now) && d.crashes == s.crashes + One(JobLive(s)) && d.tasks == []
    ensures CountsBounded(d)
  {
    RecoverCounts(s.jobs, s.now, "");
    forall key ensures CountOpen(d.jobs, key) <= 2 + d.crashes {
      RecoverCounts(s.jobs, s.now, key);
    }
  }

  lemma RestartBounded(s: Sys, d: Sys, worker: string)
    requires Exclusive(s) && Bounded(s) && d == Next(s, Restart(worker))
    ensures Bounded(d)
  {
    LiveJobsOfOne(s);
    RestartedBounded(s, d);
  }

  lemma RestartedBounded(s: Sys, d: Sys)
    requires Bounded(s) && d.jobs == Recover(s.jobs, s.now) && d.claims == s.claims && d.tasks == []
    requires d.abandoned == s.abandoned + if JobLive(s) then [s.tasks[0].stage.id] else []
    requires d.crashes == s.crashes + One(JobLive(s))
    ensures Bounded(d)
  {
    RowsRestarted(s, d);
    SeenRestarted(s, d);
    CountsRestarted(s, d);
  }

  lemma SeenHasRow(s: Sys, id: string)
    requires NewIdsUnseen(s) && (id in s.claims || id in s.abandoned)
    ensures IndexOf(s.jobs, id) >= 0
  {
    if id in s.claims {
      var n :| 0 <= n < |s.claims| && s.claims[n] == id;
    } else {
      var n :| 0 <= n < |s.abandoned| && s.abandoned[n] == id;
    }
  }

  lemma UnseenCountsZero(s: Sys, id: string)
    requires NewIdsUnseen(s) && IndexOf(s.jobs, id) == -1
    ensures Claims(s, id) == 0 && Abandons(s, id) == 0
  {
    if id in s.claims || id in s.abandoned { SeenHasRow(s, id); }
  }

  lemma EnqueueBounded(s: Sys, d: Sys, storeKey: string, priority: int, origin: Origin, newId: string)
    requires Bounded(s) && d == Next(s, EnqueueCall(storeKey, priority, origin, newId))
    ensures Bounded(d)
  {
    var i := PendingIndex(s.jobs, storeKey, |s.jobs|);
    if i >= 0 {
      if priority > s.jobs[i].priority {
        RaiseBounded(s, d, i, s.jobs[i].(priority := priority, origin := origin));
      } else {
        BoundedMoves(s, d);
      }
    } else if IndexOf(s.jobs, newId) >= 0 {
      BoundedMoves(s, d);
    } else {
      InsertBounded(s, d, Job(newId, storeKey, Pending, 0, s.now, priority, origin, None, None, None));
    }
  }

  lemma SameLiveRow(s: Sys, d: Sys)
    requires LiveRow(s) && DistinctJobs(d.jobs) && |d.jobs| >= |s.jobs|
    requires forall k :: 0 <= k < |s.jobs| ==> d.jobs[k].id == s.jobs[k].id && d.jobs[k].status == s.jobs[k].status
    requires d.tasks == s.tasks && d.claims == s.claims
    ensures LiveRow(d)
  {
    if JobLive(s) { LiveRowAt(d, IndexOf(s.jobs, s.tasks[0].stage.id), s.tasks[0].stage.id); }
  }

  lemma RowsRaised(s: Sys, d: Sys, i: nat, row: Job)
    requires RowsBounded(s) && i < |s.jobs| && d == s.(jobs := s.jobs[i := row])
    requires row.id == s.jobs[i].id && row.attempts == s.jobs[i].attempts && row.status == s.jobs[i].status
    ensures RowsBounded(d)
  {
    forall k | 0 <= k < |d.jobs| ensures RowBounded(d, d.jobs[k]) {
      assert RowBounded(s, s.jobs[k]);
    }
  }

  lemma RaiseBounded(s: Sys, d: Sys, i: nat, row: Job)
    requires Bounded(s) && i < |s.jobs| && d == s.(jobs := s.jobs[i := row])
    requires row.id == s.jobs[i].id && row.storeKey == s.jobs[i].storeKey && row.attempts == s.jobs[i].attempts && row.status == s.jobs[i].status
    ensures Bounded(d)
  {
    RowsRaised(s, d, i, row);
    CountsReplaced(s, d, i, row);
    SameIdsSeen(s, d);
    SameLiveRow(s, d);
  }

  lemma CountsInserted(s: Sys, d: Sys, row: Job)
    requires CountsBounded(s) && row.status == Pending && d.crashes == s.crashes && d.tasks == s.tasks
    requires PendingIndex(s.jobs, row.storeKey, |s.jobs|) == -1 && d.jobs == s.jobs + [row]
    ensures CountsBounded(d)
  {
    OpenAreRunning(s.jobs, row.storeKey);
    CountAppend(s.jobs, row, "");
    forall key ensures CountOpen(d.jobs, key) <= 2 + d.crashes {
      CountAppend(s.jobs, row, key);
    }
  }

  lemma InsertBounded(s: Sys, d: Sys, row: Job)
    requires Bounded(s) && IndexOf(s.jobs, row.id) == -1 && row.status == Pending && row.attempts == 0
    requires PendingIndex(s.jobs, row.storeKey, |s.jobs|) == -1 && d == s.(jobs := s.jobs + [row])
    ensures Bounded(d)
  {
    UnseenCountsZero(s, row.id);
    forall k | 0 <= k < |d.jobs| ensures RowBounded(d, d.jobs[k]) {
      if k < |s.jobs| { assert RowBounded(s, s.jobs[k]); }
    }
    CountsInserted(s, d, row);
    SameIdsSeen(s, d);
    SameLiveRow(s, d);
  }

  lemma WakeRoundBounded(s: Sys, d: Sys, i: nat)
    requires Bounded(s) && s.tasks == [] && d == WakeRound(s, i)
    ensures Bounded(d)
  {
    if i >= MAX_WAKE_DRAIN_PER_CALL || s.stopping { BoundedMoves(s, d); }
    else { ClaimBounded(s, d, Some(PRIORITY_EXPLICIT), Wake(i)); }
  }

  lemma StartWakeBounded(s: Sys, d: Sys)
    requires Bounded(s) && s.tasks == [] && LaneFree(s) && d == StartWake(s)
    ensures Bounded(d)
  {
    var held := s.(inFlight := true, wakeScans := s.wakeScans + 1);
    BoundedMoves(s, held);
    WakeRoundBounded(held, d, 0);
  }

  lemma TickBounded(s: Sys, d: Sys)
    requires Bounded(s) && s.tasks == [] && LaneFree(s) && d == StartDrain(s)
    ensures Bounded(d)
  {
    var held := s.(inFlight := true);
    BoundedMoves(s, held);
    ClaimBounded(held, d, None, Drain);
  }

  lemma SettledBounded(s: Sys, d: Sys, ok: bool, error: string)
    requires Bounded(s) && JobLive(s) && d == Next(s, Settle(0, ok, error))
    ensures Bounded(d)
  {
    var i := IndexOf(s.jobs, s.tasks[0].stage.id);
    SettleBounded(s, d, i, if ok then Completed(s.jobs[i]) else Failed(s.jobs[i], error, s.now));
  }

  lemma GoRoundBounded(s: Sys, r: Sys, d: Sys, i: nat)
    requires Bounded(s) && |s.tasks| == 1 && s.tasks[0].stage.AtRound?
    requires r == WithoutTask(s, 0) && d == WakeRound(r, i)
    ensures Bounded(d)
  {
    BoundedMoves(s, r);
    WakeRoundBounded(r, d, i);
  }

  lemma RoundBounded(s: Sys, d: Sys)
    requires Bounded(s) && |s.tasks| == 1 && s.tasks[0].stage.AtRound? && s.tasks[0].work.Wake?
    requires d == Next(s, GoRound(0))
    ensures Bounded(d)
  {
    GoRoundBounded(s, WithoutTask(s, 0), d, s.tasks[0].work.i + 1);
  }

  lemma ReleaseBounded(s: Sys, d: Sys)
    requires Bounded(s) && |s.tasks| == 1 && s.tasks[0].stage.AtRelease?
    requires d == Next(s, Release(0))
    ensures Bounded(d)
  {
    var r := WithoutTask(s, 0).(inFlight := false);
    if r.wakeRequested && !r.stopping {
      var served := r.(wakeRequested := false);
      BoundedMoves(s, served);
      StartWakeBounded(served, d);
    } else {
      BoundedMoves(s, r);
    }
  }

  lemma QuietBounded(s: Sys, d: Sys)
    requires Bounded(s) && d == s.(now := d.now, stopping := d.stopping, wakeRequested := d.wakeRequested)
    ensures Bounded(d)
  {
    BoundedMoves(s, d);
  }

  lemma NextBounded(s: Sys, e: Event, d: Sys)
    requires Exclusive(s) && Bounded(s) && d == Next(s, e)
    ensures Bounded(d)
  {
    match e
    case Tick => if LaneFree(s) { TickBounded(s, d); }
    case WakeCall => if LaneFree(s) { StartWakeBounded(s, d); } else { QuietBounded(s, d); }
    case Settle(k, ok, error) => if k == 0 && JobLive(s) { SettledBounded(s, d, ok, error); }
    case GoRound(k) => if k == 0 && |s.tasks| == 1 && s.tasks[0].stage.AtRound? { RoundBounded(s, d); }
    case Release(k) => if k == 0 && |s.tasks| == 1 && s.tasks[0].stage.AtRelease? { ReleaseBounded(s, d); }
    case StopCall => QuietBounded(s, d);
    case Restart(worker) => RestartBounded(s, d, worker);
    case EnqueueCall(storeKey, priority, origin, newId) => EnqueueBounded(s, d, storeKey, priority, origin, newId);
    case Clock(_) => QuietBounded(s, d);
  }

  lemma {:induction false} RunBounded(now: int, leaseMs: nat, worker: string, events: seq<Event>)
    ensures Exclusive(Run(Initial(now, leaseMs, worker), events)) && Bounded(Run(Initial(now, leaseMs, worker), events))
  {
    RunExclusive(now, leaseMs, worker, events);
    if events != [] {
      RunBounded(now, leaseMs, worker, events[..|events| - 1]);
      NextBounded(Run(Initial(now, leaseMs, worker), events[..|events| - 1]), events[|events| - 1],
                  Run(Initial(now, leaseMs, worker), events));
    }
  }

  /** In every run, with any pattern of failures and crashes: a row has been claimed
      `attempts` times, at most 8 more than claims of it that died with their process; a
      dead row at least 8 times, so exactly 8 when none did; and a store never has more
      than 2 pending and running rows plus one per crash. */
  lemma RetriesAndRowsBounded(now: int, leaseMs: nat, worker: string, events: seq<Event>, i: nat, storeKey: string)
    ensures var s := Run(Initial(now, leaseMs, worker), events);
            && (i < |s.jobs| ==>
                 var job := s.jobs[i];
                 && Claims(s, job.id) == job.attempts <= 8 + Abandons(s, job.id)
                 && (job.status == Dead && Abandons(s, job.id) == 0 ==> Claims(s, job.id) == 8))
            && CountOpen(s.jobs, storeKey) <= 2 + s.crashes
  {
    RunBounded(now, leaseMs, worker, events);
    var s := Run(Initial(now, leaseMs, worker), events);
    if i < |s.jobs| { assert RowBounded(s, s.jobs[i]); }
  }

  lemma RunStep(s: Sys, events: seq<Event>, e: Event)
    ensures Run(s, events + [e]) == Next(Run(s, events), e)
  {
    assert (events + [e])[..|events|] == events;
  }

  lemma ClaimsOnlyRow(s: Sys)
    requires LaneFree(s) && |s.jobs| == 1 && Ready(s.jobs[0], s.now, None) && s.tasks == []
    ensures var d := Next(s, Tick);
            && d.jobs == [Claimed(s.jobs[0], s.now + s.leaseMs, s.worker)]
            && d.tasks == [Task(Drain, AtJob(s.jobs[0].id))] && d.now == s.now && d.crashes == s.crashes
  {
    assert ClaimIndex(s.jobs, s.now, None, 0) == -1;
  }

  lemma EnqueuesBesideRunning(s: Sys, b: string)
    requires |s.jobs| == 1 && s.jobs[0].status == Running && s.jobs[0].id != b
    ensures var d := Next(s, EnqueueCall(s.jobs[0].storeKey, 0, Sweep, b));
            && d == s.(jobs := d.jobs) && |d.jobs| == 2 && d.jobs[0] == s.jobs[0]
            && d.jobs[1].id == b && d.jobs[1].status == Pending && d.jobs[1].storeKey == s.jobs[0].storeKey
  {
  }

  lemma FailsBesidePending(s: Sys)
    requires |s.jobs| == 2 && s.jobs[0].id != s.jobs[1].id && s.jobs[1].status == Pending && s.jobs[0].attempts < MAX_ATTEMPTS
    requires s.tasks == [Task(Drain, AtJob(s.jobs[0].id))]
    ensures var d := Next(s, Settle(0, false, ""));
            && |d.jobs| == 2 && d.jobs[1] == s.jobs[1] && d.crashes == s.crashes
            && d.jobs[0].status == Pending && d.jobs[0].storeKey == s.jobs[0].storeKey
  {
  }

  lemma RunTwice(s: Sys, events: seq<Event>, e: Event, f: Event, d: Sys)
    requires d == Next(Run(s, events), e)
    ensures Run(s, events + [e, f]) == Next(d, f)
  {
    assert Run(s, events + [e]) == d by { RunStep(s, events, e); }
    assert events + [e] + [f] == events + [e, f];
    RunStep(s, events + [e], f);
  }

  /** The row bound is attained without any crash: a job fails while a second request for
      its store waits, so "one pending row per store" does not hold. */
  lemma TwoPendingRowsReachable(now: int, leaseMs: nat, worker: string, key: string, a: string,
                                b: string) returns (events: seq<Event>)
    requires a != b
    ensures var s := Run(Initial(now, leaseMs, worker), events);
            && |s.jobs| == 2 && s.jobs[0].status == Pending && s.jobs[1].status == Pending
            && s.jobs[0].storeKey == key == s.jobs[1].storeKey && s.crashes == 0
  {
    var s0 := Initial(now, leaseMs, worker);
    var first, second, fails := EnqueueCall(key, 0, Sweep, a), EnqueueCall(key, 0, Sweep, b), Settle(0, false, "");
    var s2 := ClaimedFirst(s0, key, a);
    RunTwice(s0, [], first, Tick, Next(s0, first));
    events := [] + [first, Tick] + [second, fails];
    RunTwice(s0, [] + [first, Tick], second, fails, Next(s2, second));
    EnqueuesBesideRunning(s2, b);
    FailsBesidePending(Next(s2, second));
  }

  lemma ClaimedFirst(s0: Sys, key: string, a: string) returns (s2: Sys)
    requires s0.jobs == [] && s0.tasks == [] && LaneFree(s0)
    ensures s2 == Next(Next(s0, EnqueueCall(key, 0, Sweep, a)), Tick)
    ensures |s2.jobs| == 1 && s2.jobs[0].id == a && s2.jobs[0].storeKey == key && s2.jobs[0].status == Running
    ensures s2.jobs[0].attempts == 1 && s2.tasks == [Task(Drain, AtJob(a))] && s2.crashes == s0.crashes
  {
    var s1 := Next(s0, EnqueueCall(key, 0, Sweep, a));
    ClaimsOnlyRow(s1);
    s2 := Next(s1, Tick);
  }

  /** The row after its pass threw, in terms of how often it had been claimed. */
  lemma FailedRow(job: Job, error: string, now: int)
    requires job.attempts >= 1
    ensures var d := Failed(job, error, now);
            && d.id == job.id && d.attempts == job.attempts && d.leaseUntil == None
            && (if job.attempts >= MAX_ATTEMPTS then d.status == Dead
                else d.status == Pending && d.nextAttemptAt - now == (if job.attempts <= 5 then BASE_BACKOFF_MS * Pow2(job.attempts - 1) else MAX_BACKOFF_MS))
  {
    assert Pow2(0) == 1 && Pow2(1) == 2 && Pow2(2) == 4 && Pow2(3) == 8 && Pow2(4) == 16 && Pow2(5) == 32 && Pow2(6) == 64;
    if job.attempts > 6 && job.attempts < MAX_ATTEMPTS { assert job.attempts - 1 == 6; }
  }

  lemma SettledRow(s: Sys, error: string, i: int)
    requires JobLive(s) && i == IndexOf(s.jobs, s.tasks[0].stage.id) && i >= 0
    ensures Next(s, Settle(0, false, error)).jobs == s.jobs[i := Failed(s.jobs[i], error, s.now)]
  {
  }

  /** A job whose pass throws is dead if and only if that was at least its 8th claim.
      Otherwise it waits: 30 s after the first claim, doubling to 8 min after the fifth, and
      15 min from then on. */
  lemma FailedPassOutcome(s: Sys, error: string, i: int)
    requires Exclusive(s) && Bounded(s) && JobLive(s) && i == IndexOf(s.jobs, s.tasks[0].stage.id)
    ensures i >= 0
    ensures var claims, d := Claims(s, s.jobs[i].id), Next(s, Settle(0, false, error)).jobs[i];
            if claims >= 8 then d.status == Dead
            else d.status == Pending && d.nextAttemptAt - s.now == (if claims <= 5 then 30_000 * Pow2(claims - 1) else 900_000)
  {
    assert RowBounded(s, s.jobs[i]);
    SettledRow(s, error, i);
    FailedRow(s.jobs[i], error, s.now);
  }
}
