/** Jobs delivered through the idempotent inbox (libs/kernel/messaging/src/lib/inbox.service.ts;
    libs/domain/scheduler/application/src/lib/job-processor.service.ts; libs/domain/scheduler/domain/src/lib/job-
    state-machine.ts). */
module InboxJobs {
  import opened Wrappers

  datatype JobStatus = Pending | Queued | Running | Succeeded | FailedRetryable | FailedTerminal | RetryScheduled

  /** `tenantMatches` says that the payload names no other tenant. */
  datatype Job = Job(status: JobStatus, attempts: int, maxAttempts: int, tenantMatches: bool, lastError: Option<string>)

  /** What happens while a job is executed: the two flushes, and the handler with its error message, if it throws. */
  datatype Run = Run(runningFlushed: bool, error: Option<string>, finalFlushed: bool)

  /** The unguarded state machine. */
  function Transition(job: Job, next: JobStatus, error: Option<string>): Job {
    job.(status := next,
         lastError := if error.Some? && error.value != "" then error else job.lastError,
         attempts := if next == Running then job.attempts + 1 else job.attempts)
  }

  /** `executeJob` on a job that exists: the job as the last flush leaves it, or nothing when the call throws. */
  function Execute(job: Job, run: Run): Option<Job> {
    var running := Transition(job, Running, None);
    if !job.tenantMatches || !run.runningFlushed || !run.finalFlushed then None
    else if run.error.None? then Some(Transition(running, Succeeded, None))
    else if running.attempts < running.maxAttempts then Some(Transition(running, RetryScheduled, run.error))
    else Some(Transition(running, FailedTerminal, run.error))
  }

  class JobRow {
    var status: JobStatus
    var attempts: int
    var maxAttempts: int
    var tenantMatches: bool
    var lastError: Option<string>

    constructor (job: Job)
      ensures Value() == job
    {
      status, attempts, maxAttempts := job.status, job.attempts, job.maxAttempts;
      tenantMatches, lastError := job.tenantMatches, job.lastError;
    }

    function Value(): Job
      reads this
    {
      Job(status, attempts, maxAttempts, tenantMatches, lastError)
    }

    method Step(next: JobStatus, error: Option<string>)
      modifies this
      ensures Value() == Transition(old(Value()), next, error)
    {
      status := next;
      if error.Some? && error.value != "" {
        lastError := error;
      }
      if next == Running {
        attempts := attempts + 1;
      }
    }

    /** False when it throws; the transaction around it then discards the row. */
    method ExecuteJob(run: Run) returns (returned: bool)
      modifies this
      ensures returned <==> Execute(old(Value()), run).Some?
      ensures returned ==> Value() == Execute(old(Value()), run).value
    {
      if !tenantMatches { return false; }
      Step(Running, None);
      if !run.runningFlushed { return false; }
      if run.error.None? {
        Step(Succeeded, None);
      } else if attempts < maxAttempts {
        Step(RetryScheduled, run.error);
      } else {
        Step(FailedTerminal, run.error);
      }
      return run.finalFlushed;
    }
  }

  // ----------------------------------------------------------------- any number of deliveries, interleaved

  /** A delivery between finding no inbox row and committing; it works on the job it read, if there was one. */
  datatype Delivery = Delivery(jobId: nat, job: Option<Job>)

  /** `bodies` lists the jobs whose handler was called, `commits` those whose transaction then committed. */
  datatype World = World(jobs: map<nat, Job>, inbox: set<nat>, open: map<nat, Delivery>, bodies: seq<nat>,
                         commits: seq<nat>)

  datatype Event =
    | Enqueue(jobId: nat, maxAttempts: int, tenantMatches: bool)
    | Begin(delivery: nat, jobId: nat)
    | Finish(delivery: nat, run: Run, commitWorks: bool)

  function Next(world: World, event: Event): World {
    match event
    case Enqueue(jobId, maxAttempts, tenantMatches) =>
      if jobId in world.jobs then world
      else world.(jobs := world.jobs[jobId := Job(Queued, 0, maxAttempts, tenantMatches, None)])
    case Begin(delivery, jobId) =>
      if delivery in world.open || jobId in world.inbox then world
      else
        var job := if jobId in world.jobs then Some(world.jobs[jobId]) else None;
        world.(open := world.open[delivery := Delivery(jobId, job)])
    case Finish(delivery, run, commitWorks) =>
      if delivery !in world.open then world else Commit(world, delivery, run, commitWorks)
  }

  /** The handler runs, and the transaction commits unless something failed or another delivery has already inserted
      the inbox row: message and consumer are its primary key. */
  function Commit(world: World, delivery: nat, run: Run, commitWorks: bool): World
    requires delivery in world.open
  {
    var jobId, job := world.open[delivery].jobId, world.open[delivery].job;
    var done := if job.Some? then Execute(job.value, run) else None;
    var called := job.Some? && job.value.tenantMatches && run.runningFlushed;
    var bodies := if called then world.bodies + [jobId] else world.bodies;
    var closed := world.(open := world.open - {delivery}, bodies := bodies);
    if !commitWorks || jobId in world.inbox || (job.Some? && done.None?) then closed
    else
      closed.(jobs := if done.Some? then world.jobs[jobId := done.value] else world.jobs,
              inbox := world.inbox + {jobId},
              commits := if done.Some? then world.commits + [jobId] else world.commits)
  }

  /** The service: one delivery in one transaction, run without interruption; `open` is empty of it before and after. */
  class InboxService {
    var jobs: map<nat, Job>
    var inbox: set<nat>
    ghost var open: map<nat, Delivery>
    ghost var bodies: seq<nat>
    ghost var commits: seq<nat>

    ghost function State(): World
      reads this
    {
      World(jobs, inbox, open, bodies, commits)
    }

    method Process(ghost delivery: nat, jobId: nat, run: Run, commitWorks: bool)
      requires delivery !in open
      modifies this
      ensures State() == Next(Next(old(State()), Begin(delivery, jobId)), Finish(delivery, run, commitWorks))
    {
      if jobId in inbox { return; }
      ghost var began := Next(State(), Begin(delivery, jobId));
      assert began.open - {delivery} == open;
      var written := jobs;
      if jobId in jobs {
        if jobs[jobId].tenantMatches && run.runningFlushed {
          bodies := bodies + [jobId];
        }
        var row := new JobRow(jobs[jobId]);
        var returned := row.ExecuteJob(run);
        if !returned { return; }
        written := jobs[jobId := row.Value()];
        if commitWorks {
          commits := commits + [jobId];
        }
      }
      if !commitWorks { return; }
      jobs, inbox := written, inbox + {jobId};
    }
  }

  const EMPTY := World(map[], {}, map[], [], [])

  function After(events: seq<Event>): World {
    if events == [] then EMPTY else Next(After(events[..|events| - 1]), events[|events| - 1])
  }

  predicate Untouched(job: Job) {
    job.status == Queued && job.attempts == 0 && job.lastError == None
  }

  predicate RanOnce(job: Job) {
    && job.attempts == 1
    && match job.status
       case Succeeded => job.lastError == None
       case RetryScheduled => 1 < job.maxAttempts
       case FailedTerminal => job.maxAttempts <= 1
       case _ => false
  }

  ghost predicate Inv(world: World) {
    && (forall id :: id in world.jobs && id !in world.commits ==> Untouched(world.jobs[id]))
    && (forall id :: id in world.commits ==> id in world.inbox && id in world.jobs && RanOnce(world.jobs[id]))
    && (forall i, j :: 0 <= i < j < |world.commits| ==> world.commits[i] != world.commits[j])
    && (forall d :: d in world.open ==>
          var jobId, job := world.open[d].jobId, world.open[d].job;
          && (job.Some? ==> jobId in world.jobs && Untouched(job.value))
          && (job.Some? && jobId !in world.inbox ==> world.jobs[jobId] == job.value))
  }

  lemma FinishKeepsInv(world: World, delivery: nat, run: Run, commitWorks: bool)
    requires Inv(world) && delivery in world.open
    ensures Inv(Commit(world, delivery, run, commitWorks))
  {
    var jobId, job := world.open[delivery].jobId, world.open[delivery].job;
    var after := Commit(world, delivery, run, commitWorks);
    if jobId in after.inbox && jobId !in world.inbox && job.Some? {
      assert jobId !in world.commits;
      assert RanOnce(after.jobs[jobId]);
      assert forall id :: id in after.commits <==> id in world.commits || id == jobId;
    }
  }

  lemma StepKeepsInv(world: World, event: Event)
    requires Inv(world)
    ensures Inv(Next(world, event))
  {
    match event
    case Finish(delivery, run, commitWorks) =>
      if delivery in world.open {
        FinishKeepsInv(world, delivery, run, commitWorks);
      }
    case _ =>
  }

  lemma {:induction false} EveryRunKeepsInv(events: seq<Event>)
    ensures Inv(After(events))
  {
    if events != [] {
      EveryRunKeepsInv(events[..|events| - 1]);
      StepKeepsInv(After(events[..|events| - 1]), events[|events| - 1]);
    }
  }

  function Count(ids: seq<nat>, id: nat): nat {
    if ids == [] then 0 else Count(ids[..|ids| - 1], id) + if ids[|ids| - 1] == id then 1 else 0
  }

  lemma {:induction false} CountOfDistinct(ids: seq<nat>, id: nat)
    requires forall i, j :: 0 <= i < j < |ids| ==> ids[i] != ids[j]
    ensures Count(ids, id) == if id in ids then 1 else 0
  {
    if ids != [] {
      CountOfDistinct(ids[..|ids| - 1], id);
    }
  }

  /** However its deliveries interleave and fail, a job's handler commits at most once; its attempts say how often,
      so a job allowed two attempts or more never fails terminally. */
  lemma AtMostOneCommit(events: seq<Event>, jobId: nat)
    ensures var world := After(events);
            && Count(world.commits, jobId) <= 1
            && (jobId in world.jobs ==>
                  && world.jobs[jobId].attempts == Count(world.commits, jobId)
                  && (world.jobs[jobId].attempts <= world.jobs[jobId].maxAttempts || world.jobs[jobId].maxAttempts <= 0)
                  && (world.jobs[jobId].status == FailedTerminal ==> world.jobs[jobId].maxAttempts <= 1))
  {
    EveryRunKeepsInv(events);
    CountOfDistinct(After(events).commits, jobId);
  }

  // ----- what the committed delivery leaves -----

  /** The delivery executes the job and its transaction commits: it had read the job, of the right tenant, both flushes
      and the commit work, and no other delivery came first. Whether the handler threw is not asked. */
  predicate CommitsJob(world: World, event: Event, jobId: nat) {
    && event.Finish? && event.delivery in world.open
    && world.open[event.delivery].jobId == jobId && world.open[event.delivery].job.Some?
    && world.open[event.delivery].job.value.tenantMatches
    && event.run.runningFlushed && event.run.finalFlushed && event.commitWorks && jobId !in world.inbox
  }

  /** The run of the delivery that committed the job. */
  function CommittedRun(events: seq<Event>, jobId: nat): Option<Run> {
    if events == [] then None
    else
      var shorter, event := events[..|events| - 1], events[|events| - 1];
      if CommitsJob(After(shorter), event, jobId) then Some(event.run) else CommittedRun(shorter, jobId)
  }

  /** The job as its first enqueuing left it. */
  function EnqueuedAs(events: seq<Event>, jobId: nat): Option<Job> {
    if events == [] then None
    else
      var shorter, event := events[..|events| - 1], events[|events| - 1];
      if EnqueuedAs(shorter, jobId).Some? || !event.Enqueue? || event.jobId != jobId then EnqueuedAs(shorter, jobId)
      else Some(Job(Queued, 0, event.maxAttempts, event.tenantMatches, None))
  }

  predicate SameKind(a: Job, b: Job) {
    a.maxAttempts == b.maxAttempts && a.tenantMatches == b.tenantMatches
  }

  predicate LeftBy(job: Job, run: Run) {
    && (job.status == Succeeded <==> run.error.None?)
    && (job.status == RetryScheduled <==> run.error.Some? && job.maxAttempts > 1)
    && (job.status == FailedTerminal <==> run.error.Some? && job.maxAttempts <= 1)
    && job.lastError == (if run.error.Some? && run.error.value != "" then run.error else None)
    && job.attempts == 1 && job.tenantMatches
  }

  lemma CommitLeavesJob(world: World, event: Event, jobId: nat)
    requires Inv(world)
    ensures var later := Next(world, event);
      && (event.Finish? ==> event.delivery !in later.open)
      && (jobId in later.commits <==> jobId in world.commits || CommitsJob(world, event, jobId))
      && (CommitsJob(world, event, jobId) ==> jobId in later.jobs && LeftBy(later.jobs[jobId], event.run))
      && (jobId in world.jobs ==>
            && jobId in later.jobs && SameKind(later.jobs[jobId], world.jobs[jobId])
            && (!CommitsJob(world, event, jobId) ==> later.jobs[jobId] == world.jobs[jobId]))
      && (jobId !in world.jobs ==> (jobId in later.jobs <==> event.Enqueue? && event.jobId == jobId))
      && (jobId !in world.jobs && jobId in later.jobs ==>
            later.jobs[jobId] == Job(Queued, 0, event.maxAttempts, event.tenantMatches, None))
  {
    if event.Finish? && event.delivery in world.open && CommitsJob(world, event, jobId) {
      var job := world.open[event.delivery].job.value;
      assert Untouched(job) && Execute(job, event.run).Some?;
    }
  }

  /** Over every interleaving of deliveries and failures: a job is committed exactly when some delivery executed and
      committed it, and then it is SUCCEEDED exactly when that delivery's handler returned, RETRY_SCHEDULED exactly
      when it threw and more than one attempt was allowed, FAILED_TERMINAL exactly when it threw and none was left,
      with its message as last error; otherwise it is as enqueued. */
  lemma {:induction false} StatusTellsCommittedRun(events: seq<Event>, jobId: nat)
    ensures var world, run := After(events), CommittedRun(events, jobId);
      && (jobId in world.commits <==> run.Some?)
      && (run.Some? ==> jobId in world.jobs && LeftBy(world.jobs[jobId], run.value))
      && (jobId in world.jobs <==> EnqueuedAs(events, jobId).Some?)
      && (jobId in world.jobs ==> SameKind(world.jobs[jobId], EnqueuedAs(events, jobId).value))
      && (run.None? && jobId in world.jobs ==> world.jobs[jobId] == EnqueuedAs(events, jobId).value)
  {
    EveryRunKeepsInv(events);
    if events != [] {
      var shorter, event := events[..|events| - 1], events[|events| - 1];
      StatusTellsCommittedRun(shorter, jobId);
      EveryRunKeepsInv(shorter);
      CommitLeavesJob(After(shorter), event, jobId);
    }
  }

  /** A job whose payload names another tenant stays as it was enqueued, whatever is delivered. */
  lemma ForeignJobsNeverRun(events: seq<Event>, jobId: nat)
    requires EnqueuedAs(events, jobId).Some? && !EnqueuedAs(events, jobId).value.tenantMatches
    ensures var world := After(events);
      jobId in world.jobs && world.jobs[jobId] == EnqueuedAs(events, jobId).value && jobId !in world.commits
  {
    StatusTellsCommittedRun(events, jobId);
  }

  /** The delivery calls the job's handler: it had read the job, of the right tenant, and saved it as running. */
  predicate CallsHandler(world: World, event: Event, jobId: nat) {
    && event.Finish? && event.delivery in world.open
    && world.open[event.delivery].jobId == jobId && world.open[event.delivery].job.Some?
    && world.open[event.delivery].job.value.tenantMatches && event.run.runningFlushed
  }

  function HandlerCalls(events: seq<Event>, jobId: nat): nat {
    if events == [] then 0
    else
      var shorter := events[..|events| - 1];
      HandlerCalls(shorter, jobId) + if CallsHandler(After(shorter), events[|events| - 1], jobId) then 1 else 0
  }

  lemma CallGrowsBodies(world: World, event: Event, jobId: nat)
    ensures Count(Next(world, event).bodies, jobId) ==
            Count(world.bodies, jobId) + if CallsHandler(world, event, jobId) then 1 else 0
  {
    if event.Finish? && event.delivery in world.open {
      CountOfMore(world.bodies, world.open[event.delivery].jobId, jobId);
    }
  }

  /** The handler is called once for each such delivery, whether or not it is then committed. */
  lemma {:induction false} BodiesCountCalls(events: seq<Event>, jobId: nat)
    ensures Count(After(events).bodies, jobId) == HandlerCalls(events, jobId)
  {
    if events != [] {
      BodiesCountCalls(events[..|events| - 1], jobId);
      CallGrowsBodies(After(events[..|events| - 1]), events[|events| - 1], jobId);
    }
  }

  lemma CountOfMore(ids: seq<nat>, last: nat, id: nat)
    ensures Count(ids + [last], id) == Count(ids, id) + if last == id then 1 else 0
  {
    assert (ids + [last])[..|ids|] == ids;
  }

  /** Once its inbox row is there, no later delivery changes a job. */
  lemma {:induction false} ProcessedJobsAreFrozen(events: seq<Event>, more: seq<Event>, jobId: nat)
    requires jobId in After(events).inbox && jobId in After(events).jobs
    ensures var later := After(events + more);
            && jobId in later.inbox && jobId in later.jobs
            && later.jobs[jobId] == After(events).jobs[jobId]
            && Count(later.commits, jobId) == Count(After(events).commits, jobId)
    decreases |more|
  {
    if more == [] {
      assert events + more == events;
    } else {
      var n := |more| - 1;
      ProcessedJobsAreFrozen(events, more[..n], jobId);
      assert (events + more)[..|events| + n] == events + more[..n];
      FrozenStep(After(events + more[..n]), more[n], jobId);
    }
  }

  lemma FrozenStep(world: World, event: Event, jobId: nat)
    requires jobId in world.inbox && jobId in world.jobs
    ensures var later := Next(world, event);
            && jobId in later.inbox && jobId in later.jobs
            && later.jobs[jobId] == world.jobs[jobId]
            && Count(later.commits, jobId) == Count(world.commits, jobId)
  {}

  /** A scheduled retry is one of those: nothing this worker is delivered ever runs it. */
  lemma ScheduledRetriesNeverRun(events: seq<Event>, more: seq<Event>, jobId: nat)
    requires jobId in After(events).jobs && After(events).jobs[jobId].status == RetryScheduled
    ensures jobId in After(events + more).jobs && After(events + more).jobs[jobId] == After(events).jobs[jobId]
  {
    EveryRunKeepsInv(events);
    assert jobId in After(events).commits;
    ProcessedJobsAreFrozen(events, more, jobId);
  }

  lemma FourSteps(a: Event, b: Event, c: Event, d: Event)
    ensures After([a, b, c, d]) == Next(Next(Next(Next(EMPTY, a), b), c), d)
  {
    var events := [a, b, c, d];
    assert events[..3][..2] == events[..2] && events[..2][..1] == events[..1] && events[..1][..0] == [];
    assert After(events[..1]) == Next(EMPTY, a);
    assert After(events[..2]) == Next(After(events[..1]), b);
    assert After(events[..3]) == Next(After(events[..2]), c);
  }

  const SMOOTH := Run(true, None, true)

  /** Only commits are counted once: the handler itself runs twice when its first transaction cannot commit. */
  lemma HandlerCanRunTwice()
    ensures var again := [Enqueue(1, 3, true), Begin(7, 1), Begin(8, 1), Finish(7, SMOOTH, false)];
            After(again).bodies == [1] && Next(After(again), Finish(8, SMOOTH, true)).bodies == [1, 1]
  {
    FourSteps(Enqueue(1, 3, true), Begin(7, 1), Begin(8, 1), Finish(7, SMOOTH, false));
    var job := Job(Queued, 0, 3, true, None);
    var open := map[7 := Delivery(1, Some(job)), 8 := Delivery(1, Some(job))];
    assert Next(Next(Next(EMPTY, Enqueue(1, 3, true)), Begin(7, 1)), Begin(8, 1)) ==
        World(map[1 := job], {}, open, [], []);
    assert 8 in open - {7};
  }

  /** A delivery that read no row for the job commits, before any other. */
  predicate CommitsUnread(world: World, event: Event, jobId: nat) {
    && event.Finish? && event.delivery in world.open
    && world.open[event.delivery] == Delivery(jobId, None)
    && event.commitWorks && jobId !in world.inbox
  }

  ghost predicate EverCommitsUnread(events: seq<Event>, jobId: nat) {
    events != [] &&
    (EverCommitsUnread(events[..|events| - 1], jobId)
        || CommitsUnread(After(events[..|events| - 1]), events[|events| - 1], jobId))
  }

  lemma StepLosesIff(world: World, event: Event, jobId: nat)
    requires Inv(world)
    ensures var later := Next(world, event);
      jobId in later.inbox && jobId !in later.commits <==>
      (jobId in world.inbox && jobId !in world.commits) || CommitsUnread(world, event, jobId)
  {
  }

  /** Over every interleaving: a message is marked processed without its job ever having committed exactly when some
      delivery that had read no row for the job committed first. */
  lemma {:induction false} LostIffCommittedUnread(events: seq<Event>, jobId: nat)
    ensures var world := After(events);
      jobId in world.inbox && jobId !in world.commits <==> EverCommitsUnread(events, jobId)
  {
    if events != [] {
      LostIffCommittedUnread(events[..|events| - 1], jobId);
      EveryRunKeepsInv(events[..|events| - 1]);
      StepLosesIff(After(events[..|events| - 1]), events[|events| - 1], jobId);
    }
  }

  lemma {:induction false} OnceUnreadAlways(events: seq<Event>, more: seq<Event>, jobId: nat)
    requires EverCommitsUnread(events, jobId)
    ensures EverCommitsUnread(events + more, jobId)
    decreases |more|
  {
    if more == [] {
      assert events + more == events;
    } else {
      var n := |more| - 1;
      OnceUnreadAlways(events, more[..n], jobId);
      assert (events + more)[..|events| + n] == events + more[..n];
    }
  }

  /** And a job lost so is lost for good: no later delivery ever commits it, and its row, whenever it comes, stays as
      it was enqueued. */
  lemma LostJobsStayLost(events: seq<Event>, more: seq<Event>, jobId: nat)
    requires EverCommitsUnread(events, jobId)
    ensures var later := After(events + more);
      jobId !in later.commits && (jobId in later.jobs ==> Untouched(later.jobs[jobId]))
  {
    OnceUnreadAlways(events, more, jobId);
    LostIffCommittedUnread(events + more, jobId);
    EveryRunKeepsInv(events + more);
  }

  /** A delivery that arrives before its job's row is marked processed all the same, and the job is never run. */
  lemma EarlyDeliveryLosesJob(maxAttempts: int, more: seq<Event>)
    ensures var early := [Begin(7, 1), Finish(7, SMOOTH, true), Enqueue(1, maxAttempts, true), Begin(8, 1)];
            1 in After(early + more).jobs && After(early + more).jobs[1] == Job(Queued, 0, maxAttempts, true, None)
  {
    var early := [Begin(7, 1), Finish(7, SMOOTH, true), Enqueue(1, maxAttempts, true), Begin(8, 1)];
    FourSteps(early[0], early[1], early[2], early[3]);
    assert Next(EMPTY, Begin(7, 1)).open == map[7 := Delivery(1, None)];
    ProcessedJobsAreFrozen(early, more, 1);
  }
}
