/**
 The worker's exclusive lane as a step machine. Suspended asynchronous bodies are tasks;
 an event is one uninterrupted stretch of the event loop. `inFlight`, `wakeRequested` and
 `stopping` are the only things that keep the bodies apart. A process that ends leaves the
 job table behind, and the next one starts from it; the class below is the running process
 and `Next` says what each of its methods does.
 */
module Lane {
  import opened Tables
  import opened JobQueue

  const MAX_WAKE_DRAIN_PER_CALL: nat := 50

  /** The timed drain runs one job; a wake pass is in its i-th round. */
  datatype Work = Drain | Wake(i: nat)

  datatype Stage =
    | AtJob(id: string)    // awaiting the pass of a claimed job
    | AtRound               // a wake pass about to look for its next job
    | AtRelease            // the body is over, the lane not yet released

  datatype Task = Task(work: Work, stage: Stage)

  /** `claims`, `wakeScans`, `abandoned` and `crashes` record history: ids in the order
      claimed, wake passes begun, ids whose claim died with the process, processes that
      died holding a claim. */
  datatype Sys = Sys(
    jobs: seq<Job>, now: int, leaseMs: nat, worker: string,
    stopping: bool, inFlight: bool, wakeRequested: bool, tasks: seq<Task>,
    claims: seq<string>, wakeScans: nat, abandoned: seq<string>, crashes: nat)

  datatype Event =
    | Tick                                   // the drain timer fires
    | WakeCall
    | Settle(k: nat, ok: bool, error: string) // the pass of task k's job returns or throws
    | GoRound(k: nat)                         // task k's wake loop goes round
    | Release(k: nat)                        // task k's finally block
    | StopCall
    | Restart(worker: string)                // the process ends and a new one starts
    | EnqueueCall(storeKey: string, priority: int, origin: Origin, newId: string)
    | Clock(ms: nat)

  function ClaimFor(s: Sys, minPriority: Option<int>, work: Work): Sys {
    var i := ClaimIndex(s.jobs, s.now, minPriority, |s.jobs|);
    if i == -1 then s.(tasks := s.tasks + [Task(work, AtRelease)])
    else
      var id := s.jobs[i].id;
      s.(jobs := Claim(s.jobs, i, s.now + s.leaseMs, s.worker), claims := s.claims + [id],
         tasks := s.tasks + [Task(work, AtJob(id))])
  }

  /** One turn of the wake loop, on a body not listed among the tasks meanwhile. */
  function WakeRound(s: Sys, i: nat): Sys {
    if i >= MAX_WAKE_DRAIN_PER_CALL || s.stopping then s.(tasks := s.tasks + [Task(Wake(i), AtRelease)])
    else ClaimFor(s, Some(PRIORITY_EXPLICIT), Wake(i))
  }

  predicate LaneFree(s: Sys) { !s.stopping && !s.inFlight }

  function StartDrain(s: Sys): Sys {
    if !LaneFree(s) then s else ClaimFor(s.(inFlight := true), None, Drain)
  }

  function StartWake(s: Sys): Sys {
    if !LaneFree(s) then s else WakeRound(s.(inFlight := true, wakeScans := s.wakeScans + 1), 0)
  }

  function WithoutTask(s: Sys, k: nat): Sys
    requires k < |s.tasks|
  {
    s.(tasks := s.tasks[..k] + s.tasks[k + 1..])
  }

  function AfterJob(work: Work): Stage {
    if work.Drain? then AtRelease else AtRound
  }

  function LiveJobs(tasks: seq<Task>): seq<string> {
    if tasks == [] then []
    else
      var last := tasks[|tasks| - 1];
      LiveJobs(tasks[..|tasks| - 1]) + (if last.stage.AtJob? then [last.stage.id] else [])
  }

  function Next(s: Sys, e: Event): Sys {
    match e
    case Tick => StartDrain(s)
    case WakeCall => if s.stopping then s else if s.inFlight then s.(wakeRequested := true) else StartWake(s)
    case Settle(k, ok, error) =>
      if k < |s.tasks| && s.tasks[k].stage.AtJob? then
        var id := s.tasks[k].stage.id;
        s.(jobs := if ok then Complete(s.jobs, id) else Fail(s.jobs, id, error, s.now),
           tasks := s.tasks[k := s.tasks[k].(stage := AfterJob(s.tasks[k].work))])
      else s
    case GoRound(k) =>
      if k < |s.tasks| && s.tasks[k].stage.AtRound? && s.tasks[k].work.Wake?
      then WakeRound(WithoutTask(s, k), s.tasks[k].work.i + 1)
      else s
    case Release(k) =>
      if k < |s.tasks| && s.tasks[k].stage.AtRelease? then
        var released := WithoutTask(s, k).(inFlight := false);
        if released.wakeRequested && !released.stopping then StartWake(released.(wakeRequested := false)) else released
      else s
    case StopCall => s.(stopping := true)
    case Restart(worker) =>
      var live := LiveJobs(s.tasks);
      s.(jobs := Recover(s.jobs, s.now), worker := worker, stopping := false, inFlight := false, wakeRequested := false,
         tasks := [], abandoned := s.abandoned + live, crashes := s.crashes + |live|)
    case EnqueueCall(storeKey, priority, origin, newId) =>
      s.(jobs := Enqueue(s.jobs, storeKey, priority, origin, newId, s.now))
    case Clock(ms) => s.(now := s.now + ms)
  }

  function Run(s: Sys, events: seq<Event>): Sys {
    if events == [] then s else Next(Run(s, events[..|events| - 1]), events[|events| - 1])
  }

  /** An empty table and a worker that has just started. */
  function Initial(now: int, leaseMs: nat, worker: string): Sys {
    Sys([], now, leaseMs, worker, false, false, false, [], [], 0, [], 0)
  }

  /** The worker object: the closure variables of the running process. */
  class Distiller {
    const queue: Table
    const leaseMs: nat
    const worker: string
    var stopping: bool
    var inFlight: bool
    var wakeRequested: bool
    var tasks: seq<Task>
    var now: int
    ghost var claims: seq<string>
    ghost var wakeScans: nat
    ghost const abandoned: seq<string>
    ghost const crashes: nat

    ghost function View(): Sys
      reads this, queue
    {
      Sys(queue.jobs, now, leaseMs, worker, stopping, inFlight, wakeRequested, tasks, claims, wakeScans, abandoned, crashes)
    }

    /** Starting up recovers claims stranded by an earlier process. */
    constructor (queue: Table, now: int, leaseMs: nat, worker: string, ghost before: Sys)
      requires before.jobs == queue.jobs && before.now == now && before.leaseMs == leaseMs
      modifies queue
      ensures this.queue == queue
      ensures View() == Next(before, Restart(worker))
    {
      this.queue, this.now, this.leaseMs, this.worker := queue, now, leaseMs, worker;
      stopping, inFlight, wakeRequested, tasks := false, false, false, [];
      claims, wakeScans := before.claims, before.wakeScans;
      abandoned := before.abandoned + LiveJobs(before.tasks);
      crashes := before.crashes + |LiveJobs(before.tasks)|;
      new;
      var recovered := queue.RecoverStaleJobs(now);
    }

    method ClaimTask(minPriority: Option<int>, work: Work)
      modifies this, queue
      ensures View() == ClaimFor(old(View()), minPriority, work)
    {
      var job := queue.ClaimNext(now, minPriority, leaseMs, worker);
      if job == None {
        tasks := tasks + [Task(work, AtRelease)];
      } else {
        claims := claims + [job.value.id];
        tasks := tasks + [Task(work, AtJob(job.value.id))];
      }
    }

    method RunWakeRound(i: nat)
      modifies this, queue
      ensures View() == WakeRound(old(View()), i)
    {
      if i >= MAX_WAKE_DRAIN_PER_CALL || stopping {
        tasks := tasks + [Task(Wake(i), AtRelease)];
      } else {
        ClaimTask(Some(PRIORITY_EXPLICIT), Wake(i));
      }
    }

    /** Take the lane for a timed drain, unless it is busy or the worker is stopping. */
    method DrainTick()
      modifies this, queue
      ensures View() == Next(old(View()), Tick)
    {
      if stopping || inFlight { return; }
      inFlight := true;
      ClaimTask(None, Drain);
    }

    method AcquireForWake() returns (acquired: bool)
      modifies this, queue
      ensures acquired == LaneFree(old(View()))
      ensures View() == StartWake(old(View()))
    {
      if stopping || inFlight { return false; }
      inFlight := true;
      wakeScans := wakeScans + 1;
      RunWakeRound(0);
      acquired := true;
    }

    method WakeNow()
      modifies this, queue
      ensures View() == Next(old(View()), WakeCall)
    {
      if stopping { return; }
      var acquired := AcquireForWake();
      if !acquired { wakeRequested := true; }
    }

    /** The awaited pass of task k is over. */
    method JobSettled(k: nat, ok: bool, error: string)
      requires k < |tasks| && tasks[k].stage.AtJob?
      modifies this, queue
      ensures View() == Next(old(View()), Settle(k, ok, error))
    {
      var id := tasks[k].stage.id;
      if ok { queue.CompleteJob(id); } else { queue.FailJob(id, error, now); }
      tasks := tasks[k := tasks[k].(stage := AfterJob(tasks[k].work))];
    }

    method WakeLoop(k: nat)
      requires k < |tasks| && tasks[k].stage.AtRound? && tasks[k].work.Wake?
      modifies this, queue
      ensures View() == Next(old(View()), GoRound(k))
    {
      var i := tasks[k].work.i;
      tasks := tasks[..k] + tasks[k + 1..];
      assert View() == WithoutTask(old(View()), k);
      RunWakeRound(i + 1);
    }

    /** The finally block: release the lane, then serve a latched wake. */
    method ReleaseLane(k: nat)
      requires k < |tasks| && tasks[k].stage.AtRelease?
      modifies this, queue
      ensures View() == Next(old(View()), Release(k))
    {
      tasks := tasks[..k] + tasks[k + 1..];
      inFlight := false;
      if wakeRequested && !stopping {
        wakeRequested := false;
        var acquired := AcquireForWake();
      }
    }

    method Stop()
      modifies this
      ensures View() == Next(old(View()), StopCall)
    {
      stopping := true;
    }
  }
}
