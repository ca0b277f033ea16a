/**
 When a store has more than one pending row. Coalescing looks only at pending rows, so a
 running row that becomes pending again can meet one that was inserted meanwhile; nothing
 else makes two.
 */
module PendingRows {
  import opened Tables
  import opened JobQueue
  import opened Lane
  import opened LaneProofs

  predicate PendingFor(job: Job, storeKey: string) { job.storeKey == storeKey && job.status == Pending }

  predicate StaleFor(job: Job, storeKey: string, now: int) { job.storeKey == storeKey && Stale(job, now) }

  function CountPending(jobs: seq<Job>, storeKey: string): nat {
    if jobs == [] then 0
    else CountPending(jobs[..|jobs| - 1], storeKey) + One(PendingFor(jobs[|jobs| - 1], storeKey))
  }

  /** The store's rows a startup at this time takes back. */
  function CountStale(jobs: seq<Job>, storeKey: string, now: int): nat {
    if jobs == [] then 0
    else CountStale(jobs[..|jobs| - 1], storeKey, now) + One(StaleFor(jobs[|jobs| - 1], storeKey, now))
  }

  lemma {:induction false} CountPendingUpdate(jobs: seq<Job>, i: nat, job: Job, storeKey: string)
    requires i < |jobs|
    ensures CountPending(jobs[i := job], storeKey)
            == CountPending(jobs, storeKey) - One(PendingFor(jobs[i], storeKey)) + One(PendingFor(job, storeKey))
  {
    var m := |jobs| - 1;
    if i == m {
      assert jobs[i := job][..m] == jobs[..m];
    } else {
      CountPendingUpdate(jobs[..m], i, job, storeKey);
      assert jobs[i := job][..m] == jobs[..m][i := job];
    }
  }

  /** Recovery makes each of the store's stale rows pending beside those that already were. */
  lemma {:induction false} RecoverPending(jobs: seq<Job>, now: int, storeKey: string)
    ensures CountPending(Recover(jobs, now), storeKey) == CountPending(jobs, storeKey) + CountStale(jobs, storeKey, now)
  {
    if jobs != [] {
      RecoverPending(jobs[..|jobs| - 1], now, storeKey);
      assert Recover(jobs, now)[..|jobs| - 1] == Recover(jobs[..|jobs| - 1], now);
    }
  }

  lemma {:induction false} NoneIsPending(jobs: seq<Job>, storeKey: string)
    requires PendingIndex(jobs, storeKey, |jobs|) == -1
    ensures CountPending(jobs, storeKey) == 0
  {
    if jobs != [] {
      var front := jobs[..|jobs| - 1];
      assert PendingIndex(front, storeKey, |front|) == -1;
      NoneIsPending(front, storeKey);
    }
  }

  lemma ClaimPending(s: Sys, minPriority: Option<int>, work: Work, storeKey: string)
    ensures CountPending(ClaimFor(s, minPriority, work).jobs, storeKey) <= CountPending(s.jobs, storeKey)
  {
    var i := ClaimIndex(s.jobs, s.now, minPriority, |s.jobs|);
    if i >= 0 { CountPendingUpdate(s.jobs, i, Claimed(s.jobs[i], s.now + s.leaseMs, s.worker), storeKey); }
  }

  lemma RoundPending(s: Sys, i: nat, storeKey: string)
    ensures CountPending(WakeRound(s, i).jobs, storeKey) <= CountPending(s.jobs, storeKey)
  {
    if !(i >= MAX_WAKE_DRAIN_PER_CALL || s.stopping) { ClaimPending(s, Some(PRIORITY_EXPLICIT), Wake(i), storeKey); }
  }

  lemma StartPending(s: Sys, storeKey: string)
    ensures CountPending(StartWake(s).jobs, storeKey) <= CountPending(s.jobs, storeKey)
    ensures CountPending(StartDrain(s).jobs, storeKey) <= CountPending(s.jobs, storeKey)
  {
    if LaneFree(s) {
      RoundPending(s.(inFlight := true, wakeScans := s.wakeScans + 1), 0, storeKey);
      ClaimPending(s.(inFlight := true), None, Drain, storeKey);
    }
  }

  /** Enqueuing inserts only where nothing is pending. */
  lemma EnqueuePending(jobs: seq<Job>, key: string, priority: int, origin: Origin, newId: string, now: int,
                       storeKey: string)
    ensures var d := Enqueue(jobs, key, priority, origin, newId, now);
            CountPending(d, storeKey) == CountPending(jobs, storeKey)
            || (CountPending(jobs, storeKey) == 0 && CountPending(d, storeKey) == 1)
  {
    var i := PendingIndex(jobs, key, |jobs|);
    if i >= 0 {
      CountPendingUpdate(jobs, i, jobs[i].(priority := priority, origin := origin), storeKey);
    } else {
      NoneIsPending(jobs, key);
      var row := Job(newId, key, Pending, 0, now, priority, origin, None, None, None);
      assert (jobs + [row])[..|jobs|] == jobs;
    }
  }

  /** The pass of a job of this store throws short of its last attempt while another row of
      the store waits. */
  predicate FailsBeside(s: Sys, e: Event, storeKey: string) {
    && e.Settle? && e.k == 0 && !e.ok && JobLive(s)
    && var i := IndexOf(s.jobs, s.tasks[0].stage.id);
    i >= 0 && s.jobs[i].storeKey == storeKey && s.jobs[i].attempts < MAX_ATTEMPTS && CountPending(s.jobs, storeKey) >= 1
  }

  /** A startup takes back a row of this store beside another one, waiting or taken back too. */
  predicate RecoversBeside(s: Sys, e: Event, storeKey: string) {
    && e.Restart? && CountStale(s.jobs, storeKey, s.now) >= 1
    && CountPending(s.jobs, storeKey) + CountStale(s.jobs, storeKey, s.now) >= 2
  }

  predicate Doubles(s: Sys, e: Event, storeKey: string) {
    FailsBeside(s, e, storeKey) || RecoversBeside(s, e, storeKey)
  }

  lemma SettlePending(s: Sys, ok: bool, error: string, storeKey: string)
    requires JobLive(s) && LiveRow(s)
    ensures var i, d := IndexOf(s.jobs, s.tasks[0].stage.id), Next(s, Settle(0, ok, error));
            CountPending(d.jobs, storeKey)
            == CountPending(s.jobs, storeKey) + One(!ok && s.jobs[i].storeKey == storeKey && s.jobs[i].attempts < MAX_ATTEMPTS)
  {
    var i := IndexOf(s.jobs, s.tasks[0].stage.id);
    CountPendingUpdate(s.jobs, i, if ok then Completed(s.jobs[i]) else Failed(s.jobs[i], error, s.now), storeKey);
  }

  lemma RoundsPending(s: Sys, k: nat, storeKey: string)
    ensures CountPending(Next(s, GoRound(k)).jobs, storeKey) <= CountPending(s.jobs, storeKey)
  {
    if k < |s.tasks| && s.tasks[k].stage.AtRound? && s.tasks[k].work.Wake? {
      RoundPending(WithoutTask(s, k), s.tasks[k].work.i + 1, storeKey);
    }
  }

  lemma ReleasePending(s: Sys, k: nat, storeKey: string)
    ensures CountPending(Next(s, Release(k)).jobs, storeKey) <= CountPending(s.jobs, storeKey)
  {
    if k < |s.tasks| && s.tasks[k].stage.AtRelease? {
      StartPending(WithoutTask(s, k).(inFlight := false, wakeRequested := false), storeKey);
    }
  }

  /** The lane's own events, the clock and shutdown only take rows out of the pending ones. */
  lemma LanePending(s: Sys, e: Event, d: Sys, storeKey: string)
    requires d == Next(s, e) && !e.Settle? && !e.Restart? && !e.EnqueueCall?
    ensures CountPending(d.jobs, storeKey) <= CountPending(s.jobs, storeKey)
  {
    match e
    case Tick => StartPending(s, storeKey);
    case WakeCall => StartPending(s, storeKey);
    case GoRound(k) => RoundsPending(s, k, storeKey);
    case Release(k) => ReleasePending(s, k, storeKey);
    case StopCall =>
    case Clock(_) =>
  }

  lemma SettleDoubles(s: Sys, e: Event, d: Sys, storeKey: string)
    requires Exclusive(s) && LiveRow(s) && CountPending(s.jobs, storeKey) <= 1 && e.Settle? && d == Next(s, e)
    ensures CountPending(d.jobs, storeKey) > 1 <==> FailsBeside(s, e, storeKey)
  {
    if e.k == 0 && JobLive(s) { SettlePending(s, e.ok, e.error, storeKey); }
  }

  lemma RestartDoubles(s: Sys, e: Event, d: Sys, storeKey: string)
    requires CountPending(s.jobs, storeKey) <= 1 && e.Restart? && d == Next(s, e)
    ensures CountPending(d.jobs, storeKey) > 1 <==> RecoversBeside(s, e, storeKey)
  {
    RecoverPending(s.jobs, s.now, storeKey);
  }

  /** From at most one pending row of a store, an event leaves more exactly when it is one
      of those two. */
  lemma SecondPendingExactly(s: Sys, e: Event, storeKey: string)
    requires Exclusive(s) && LiveRow(s) && CountPending(s.jobs, storeKey) <= 1
    ensures CountPending(Next(s, e).jobs, storeKey) > 1 <==> Doubles(s, e, storeKey)
  {
    var d := Next(s, e);
    if e.Settle? {
      SettleDoubles(s, e, d, storeKey);
    } else if e.Restart? {
      RestartDoubles(s, e, d, storeKey);
    } else if e.EnqueueCall? {
      EnqueuePending(s.jobs, e.storeKey, e.priority, e.origin, e.newId, s.now, storeKey);
    } else {
      LanePending(s, e, d, storeKey);
    }
  }

  /** Throughout a run no store has two pending rows. */
  ghost predicate SinglePending(s: Sys, events: seq<Event>, storeKey: string) {
    forall k: nat | k <= |events| :: CountPending(Run(s, events[..k]).jobs, storeKey) <= 1
  }

  ghost predicate NeverDoubles(s: Sys, events: seq<Event>, storeKey: string) {
    forall k: nat | k < |events| :: !Doubles(Run(s, events[..k]), events[k], storeKey)
  }

  lemma RunPrefix(s: Sys, events: seq<Event>, k: nat)
    requires k < |events|
    ensures Run(s, events[..k + 1]) == Next(Run(s, events[..k]), events[k])
  {
    assert events[..k + 1][..k] == events[..k];
  }

  lemma {:induction false} UndoubledUpTo(now: int, leaseMs: nat, worker: string, events: seq<Event>, storeKey: string, k: nat)
    requires k <= |events| && NeverDoubles(Initial(now, leaseMs, worker), events, storeKey)
    ensures CountPending(Run(Initial(now, leaseMs, worker), events[..k]).jobs, storeKey) <= 1
  {
    if k > 0 {
      UndoubledUpTo(now, leaseMs, worker, events, storeKey, k - 1);
      RunBounded(now, leaseMs, worker, events[..k - 1]);
      RunPrefix(Initial(now, leaseMs, worker), events, k - 1);
      SecondPendingExactly(Run(Initial(now, leaseMs, worker), events[..k - 1]), events[k - 1], storeKey);
    }
  }

  /** A store has at most one pending row throughout a run if and only if the run holds no
      failure of a running job beside a waiting one and no startup that takes back a second. */
  lemma SinglePendingExactly(now: int, leaseMs: nat, worker: string, events: seq<Event>, storeKey: string)
    ensures SinglePending(Initial(now, leaseMs, worker), events, storeKey)
            <==> NeverDoubles(Initial(now, leaseMs, worker), events, storeKey)
  {
    var s := Initial(now, leaseMs, worker);
    if NeverDoubles(s, events, storeKey) {
      forall k: nat | k <= |events| ensures CountPending(Run(s, events[..k]).jobs, storeKey) <= 1 {
        UndoubledUpTo(now, leaseMs, worker, events, storeKey, k);
      }
    }
    if SinglePending(s, events, storeKey) {
      forall k: nat | k < |events| ensures !Doubles(Run(s, events[..k]), events[k], storeKey) {
        RunBounded(now, leaseMs, worker, events[..k]);
        RunPrefix(s, events, k);
        assert CountPending(Run(s, events[..k + 1]).jobs, storeKey) <= 1;
        SecondPendingExactly(Run(s, events[..k]), events[k], storeKey);
      }
    }
  }
}
