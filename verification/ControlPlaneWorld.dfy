/** One tenant's control plane under any interleaving of overlapping failover runs, crashes, publications of routes
    whose reads and writes are separate steps, status updates and time. Nothing here relies on the lock. */
module ControlPlaneWorld {
  import opened Wrappers
  import opened OperationTable
  import opened RoutingPlane
  import opened FailoverSaga

  /** What a route is published from: a control record read by a policy evaluation, or the targets of a snapshot read
      before, which a migration publishes again. */
  datatype Basis = Evaluated(control: Control, endpoints: Endpoints) | Reused(snapshot: Snapshot)

  /** A `resolveRoute` or `createSnapshot` under way outside failover, with the snapshot its unit of work has read. */
  datatype Publisher = Publisher(existing: Option<Snapshot>, basis: Option<Basis>)

  datatype World = World(db: Db, runs: map<nat, Run>, publishers: map<nat, Publisher>)

  datatype Event =
    | Begin(id: nat, key: string, token: string)
    | RunStep(id: nat, ok: bool)
    | Crash(id: nat)
    | ReadSnapshot(id: nat)
    | Decide(id: nat, endpoints: Option<Endpoints>)
    | Publish(id: nat)
    | UpdateStatus(status: TenantStatus, freezes: bool)
    | Elapse(ms: nat)

  function RouteOf(basis: Basis): Targets {
    match basis
    case Evaluated(control, endpoints) => PolicyTargets(control, endpoints)
    case Reused(snapshot) => snapshot.targets
  }

  /** A snapshot once read stays in the unit of work; only a publisher that found none looks again. */
  function Reading(publishers: map<nat, Publisher>, id: nat, stored: Option<Snapshot>): Publisher {
    if id !in publishers then Publisher(stored, None)
    else if publishers[id].existing.None? then publishers[id].(existing := stored)
    else publishers[id]
  }

  /** Without an unexpired snapshot the policies are evaluated on the control record read now, if the endpoints can
      be had; a tampered snapshot is an exception. */
  function Decided(db: Db, publisher: Publisher, endpoints: Option<Endpoints>): Publisher {
    if publisher.basis.Some? then publisher
    else if publisher.existing.Some? && !Verifies(publisher.existing.value, db.secret) then publisher
    else if publisher.existing.Some? && !IsExpired(publisher.existing.value, db.now) then
      publisher.(basis := Some(Reused(publisher.existing.value)))
    else if endpoints.None? then publisher
    else publisher.(basis := Some(Evaluated(db.control, endpoints.value)))
  }

  predicate Writes(db: Db, publisher: Publisher) {
    publisher.basis.Some? && CanWrite(publisher.existing, db.snapshot)
  }

  function Published(db: Db, publisher: Publisher): Db {
    if !Writes(db, publisher) then db
    else db.(snapshot := Some(NextSnapshot(publisher.existing, RouteOf(publisher.basis.value), db.now, db.secret)))
  }

  /** `updateTenantStatus`, which no caller uses with DEGRADED: it always assigns the update time, so the version
      always moves. */
  function StatusUpdated(control: Control, status: TenantStatus, freezes: bool): Control {
    if status == Degraded then control
    else control.(status := status, isFrozen := control.isFrozen || freezes, version := control.version + 1)
  }

  function Next(world: World, event: Event): World {
    match event
    case Begin(id, key, token) =>
      if id in world.runs then world else world.(runs := world.runs[id := Start(key, token)])
    case RunStep(id, ok) =>
      if id !in world.runs then world
      else
        var (db, run) := Step(world.db, world.runs[id], ok);
        world.(db := db, runs := world.runs[id := run])
    case Crash(id) => world.(runs := world.runs - {id})
    case ReadSnapshot(id) =>
      world.(publishers := world.publishers[id := Reading(world.publishers, id, world.db.snapshot)])
    case Decide(id, endpoints) =>
      if id !in world.publishers then world
      else world.(publishers := world.publishers[id := Decided(world.db, world.publishers[id], endpoints)])
    case Publish(id) =>
      if id !in world.publishers then world
      else world.(db := Published(world.db, world.publishers[id]), publishers := world.publishers - {id})
    case UpdateStatus(status, freezes) =>
      world.(db := world.db.(control := StatusUpdated(world.db.control, status, freezes)))
    case Elapse(ms) => world.(db := world.db.(now := world.db.now + ms))
  }

  function After(world: World, events: seq<Event>): World {
    if events == [] then world else Next(After(world, events[..|events| - 1]), events[|events| - 1])
  }

  // ----- one publisher, and one status update -----

  /** Undisturbed, a publisher without a row in force leaves what `resolveRoute` leaves in one piece; with one, it
      publishes the same targets again, one generation up. */
  lemma UndisturbedPublisher(world: World, id: nat, endpoints: Option<Endpoints>)
    requires id !in world.publishers
    ensures var db, s := world.db, world.db.snapshot;
            var after := Next(Next(Next(world, ReadSnapshot(id)), Decide(id, endpoints)), Event.Publish(id));
      && after.db == db.(snapshot := after.db.snapshot) && after.publishers == world.publishers
           && after.runs == world.runs
      && if IsInForce(s, db.now, db.secret)
         then after.db.snapshot == Some(NextSnapshot(s, s.value.targets, db.now, db.secret))
         else after.db.snapshot == Resolve(s, db.control, endpoints, db.now, db.secret).0
  {
    var read := Next(world, ReadSnapshot(id));
    var decided := Next(read, Decide(id, endpoints));
    assert decided.publishers - {id} == world.publishers;
  }

  /** A publisher that found no row looks again; one that found one keeps to it. */
  lemma OnlyEmptyReadersLookAgain(world: World, id: nat)
    requires id in world.publishers
    ensures var again := Next(world, ReadSnapshot(id)).publishers[id];
      && again.basis == world.publishers[id].basis
      && again.existing ==
         if world.publishers[id].existing.None? then world.db.snapshot else world.publishers[id].existing
  {
  }

  ghost predicate BasesVerify(world: World) {
    forall id :: id in world.publishers ==>
      var basis := world.publishers[id].basis;
      basis.Some? && basis.value.Reused? ==> Verifies(basis.value.snapshot, world.db.secret)
  }

  lemma StepKeepsSecret(db: Db, run: Run, ok: bool)
    ensures Step(db, run, ok).0.secret == db.secret
  {
  }

  /** Over every schedule, no snapshot that does not verify is ever published again. */
  lemma {:induction false} NothingTamperedIsReused(world: World, events: seq<Event>)
    requires BasesVerify(world)
    ensures BasesVerify(After(world, events)) && After(world, events).db.secret == world.db.secret
  {
    if events != [] {
      var before, event := After(world, events[..|events| - 1]), events[|events| - 1];
      NothingTamperedIsReused(world, events[..|events| - 1]);
      if event.RunStep? && event.id in before.runs { StepKeepsSecret(before.db, before.runs[event.id], event.ok); }
    }
  }

  /** A status update sets the status and may freeze; it never unfreezes, moves no fence, token or region, and its
      version is new. */
  lemma StatusUpdateIs(world: World, status: TenantStatus, freezes: bool)
    requires status != Degraded
    ensures var was, now := world.db.control, Next(world, UpdateStatus(status, freezes)).db.control;
      && now.status == status && (now.isFrozen <==> was.isFrozen || freezes)
      && now.fenceGeneration == was.fenceGeneration && now.writeFenceToken == was.writeFenceToken
      && now.primaryRegion == was.primaryRegion && now.secondaryRegion == was.secondaryRegion
      && forall id :: id in world.runs && FenceInv(world.db, world.runs[id]) ==>
           !IsCurrent(Next(world, UpdateStatus(status, freezes)).db, world.runs[id])
  {
  }

  // ----- the gap between generation and fence -----

  /** How far the generation is ahead of what a failover would expect now. */
  function Gap(db: Db): int {
    Generation(db.snapshot) - ExpectedGeneration(db.control)
  }

  /** The step writes the run's snapshot: in the flush meant for it, or late, in the flush of the rollback's
      transition. */
  predicate Switches(db: Db, run: Run, ok: bool) {
    var next := Step(db, run, ok).1;
    (run.pc == WritingSnapshot && next.pc == MarkingDegraded) || (run.unsaved.Some? && next.unsaved.None?)
  }

  predicate IsSwitch(world: World, event: Event) {
    event.RunStep? && event.id in world.runs && Switches(world.db, world.runs[event.id], event.ok)
  }

  /** An event that raises the expected generation without switching the route: a refused or failed switch whose
      fence is saved, or, while the version stands in for the fence, any flush of the record. */
  predicate IsBurn(world: World, event: Event) {
    !IsSwitch(world, event) && ExpectedGeneration(Next(world, event).db.control) != ExpectedGeneration(world.db.control)
  }

  /** Generations published between a run's read of the snapshot and its write, which the write takes back. */
  function Overwritten(world: World, event: Event): int {
    if IsSwitch(world, event) then Generation(world.db.snapshot) - Generation(world.runs[event.id].existing) else 0
  }

  predicate IsCurrent(db: Db, run: Run) {
    run.control.Some? && run.control.value.row.version == db.control.version
  }

  /** The run is about to write its snapshot, or holds one that could not be saved. */
  predicate StandsToWrite(run: Run) {
    run.pc == WritingSnapshot || run.unsaved.Some?
  }

  /** The record a run manages, as long as its version is current, carries the stored fence or, unsaved, the next
      one. */
  ghost predicate FenceInv(db: Db, run: Run) {
    && (run.control.Some? ==>
          var managed := run.control.value;
          && managed.row.version <= db.control.version
          && (managed.row.version == db.control.version ==>
                || managed.row.fenceGeneration == db.control.fenceGeneration
                || (managed.dirty && managed.row.fenceGeneration == ExpectedGeneration(db.control) + 1
                    && StepsLeft(run.pc) < StepsLeft(ReadingSnapshot))))
    && (StandsToWrite(run) ==>
          && run.control.Some? && run.control.value.dirty
          && run.control.value.row.fenceGeneration == Generation(run.existing) + 1
          && (IsCurrent(db, run) ==> run.control.value.row.fenceGeneration == ExpectedGeneration(db.control) + 1))
    && (run.unsaved.Some? ==>
          StepsLeft(run.pc) < StepsLeft(WritingSnapshot)
              && run.unsaved.value.generation == Generation(run.existing) + 1)
  }

  ghost predicate WorldInv(world: World) {
    forall id :: id in world.runs ==> FenceInv(world.db, world.runs[id])
  }

  /** The control record is as it was, or its version has moved. */
  predicate ControlMoved(db: Db, db': Db) {
    db'.control == db.control || db'.control.version > db.control.version
  }

  /** What one run step does to fence and generation. */
  ghost predicate StepMoves(db: Db, db': Db, run: Run, switched: bool) {
    var expected, expected' := ExpectedGeneration(db.control), ExpectedGeneration(db'.control);
    && ControlMoved(db, db')
    && if switched
       then Generation(run.existing) == expected
           && Generation(db'.snapshot) == expected' == db'.control.fenceGeneration == expected + 1
       else db'.snapshot == db.snapshot && expected' in {expected, expected + 1}
  }

  /** A saved flush closes the unit of work; `later` is any step the run may stand before then. */
  lemma SavedFlushMoves(db: Db, run: Run, later: Pc)
    requires FenceInv(db, run) && run.pc != WritingSnapshot && Flush(db, run).Some?
    requires later != WritingSnapshot && StepsLeft(later) < StepsLeft(run.pc)
    ensures var (db', run') := Flush(db, run).value;
      StepMoves(db, db', run, run.unsaved.Some?) && FenceInv(db', run'.(pc := later)) && run'.unsaved.None?
  {
  }

  lemma FlushMoves(db: Db, run: Run, ok: bool, next: Pc, failed: Pc)
    requires FenceInv(db, run) && run.pc != WritingSnapshot
    requires next != WritingSnapshot && failed != WritingSnapshot
    requires StepsLeft(failed) < StepsLeft(WritingSnapshot)
    requires StepsLeft(next) < StepsLeft(run.pc)
    ensures var (db', run') := StepFlush(db, run, ok, next, failed);
      StepMoves(db, db', run, run.unsaved.Some? && run'.unsaved.None?) && FenceInv(db', run')
  {
    if ok && Flush(db, run).Some? { SavedFlushMoves(db, run, next); }
  }

  lemma EnterMoves(db: Db, run: Run, state: OperationState, ok: bool)
    requires FenceInv(db, run) && run.pc == Enter(state)
    ensures var (db', run') := StepEnter(db, run, state, ok);
      StepMoves(db, db', run, run.unsaved.Some? && run'.unsaved.None?) && FenceInv(db', run')
  {
    var next := ApplyTransition(run.operation, state);
    if next.Some? {
      assert FenceInv(db, run.(operation := next.value));
      FlushMoves(db, run.(operation := next.value), ok, Journal(state), Caught(state));
    }
  }

  lemma ControlMoves(db: Db, run: Run, row: Control, touched: bool, ok: bool, next: Pc, failed: Pc)
    requires FenceInv(db, run) && run.pc != WritingSnapshot
    requires next != WritingSnapshot && failed != WritingSnapshot
    requires StepsLeft(failed) < StepsLeft(WritingSnapshot)
    requires StepsLeft(next) < StepsLeft(run.pc)
    requires row.fenceGeneration == Load(db, run).row.fenceGeneration && row.version == Load(db, run).row.version
    ensures var (db', run') := StepControl(db, run, row, touched, ok, next, failed);
      StepMoves(db, db', run, run.unsaved.Some? && run'.unsaved.None?) && FenceInv(db', run')
  {
    var changed := ChangedRun(db, run, row, touched);
    assert FenceInv(db, changed);
    FlushMoves(db, changed, ok, next, failed);
  }

  lemma ReadingMoves(db: Db, run: Run, ok: bool)
    requires FenceInv(db, run) && run.pc == ReadingSnapshot
    ensures var (db', run') := Step(db, run, ok); StepMoves(db, db', run, Switches(db, run, ok)) && FenceInv(db', run')
  {
  }

  lemma WritingMoves(db: Db, run: Run, ok: bool)
    requires FenceInv(db, run) && run.pc == WritingSnapshot
    ensures var (db', run') := Step(db, run, ok); StepMoves(db, db', run, Switches(db, run, ok)) && FenceInv(db', run')
  {
  }

  lemma JournalMoves(db: Db, run: Run, ok: bool)
    requires FenceInv(db, run) && run.pc.Journal?
    ensures var (db', run') := StepJournal(db, run, run.pc.state, ok);
      StepMoves(db, db', run, false) && FenceInv(db', run') && run'.unsaved == run.unsaved
  {
  }

  lemma LoadingMoves(db: Db, run: Run, ok: bool)
    requires FenceInv(db, run) && run.pc in {Creating, LoadingControl}
    ensures var (db', run') := Step(db, run, ok);
      StepMoves(db, db', run, false) && FenceInv(db', run') && run'.unsaved == run.unsaved
  {
  }

  lemma QuietStep(db: Db, run: Run, ok: bool)
    requires run.pc in {Checking, Recovering, Reporting, RecordingFailure, Releasing, Done}
    ensures var (db', run') := Step(db, run, ok);
      && db' == db && run' == run.(pc := run'.pc, threw := run'.threw)
      && run'.pc != WritingSnapshot && StepsLeft(run'.pc) <= StepsLeft(run.pc)
  {
  }

  lemma QuietMoves(db: Db, run: Run, ok: bool)
    requires FenceInv(db, run)
    requires run.pc in {Checking, Recovering, Reporting, RecordingFailure, Releasing, Done}
    ensures var (db', run') := Step(db, run, ok);
      StepMoves(db, db', run, false) && FenceInv(db', run') && run'.unsaved == run.unsaved
  {
    QuietStep(db, run, ok);
  }

  lemma ControlStepMoves(db: Db, run: Run, ok: bool)
    requires FenceInv(db, run) && run.pc in {Freezing, MarkingDegraded, Unfreezing, Thawing, Reactivating}
    ensures var (db', run') := Step(db, run, ok);
      StepMoves(db, db', run, run.unsaved.Some? && run'.unsaved.None?) && FenceInv(db', run')
  {
    var row := Load(db, run).row;
    match run.pc
    case Freezing => ControlMoves(db, run, row.(isFrozen := true), false, ok, ReadingSnapshot, RecordingFailure);
    case MarkingDegraded =>
      ControlMoves(db, run, row.(status := Degraded), true, ok, Enter(Switched), RecordingFailure);
    case Unfreezing =>
      ControlMoves(db, run, row.(isFrozen := false, writeFenceToken := None), false, ok, Enter(Finalized),
                   RecordingFailure);
    case Thawing =>
      ControlMoves(db, run, row.(isFrozen := false, writeFenceToken := None), false, ok, Reactivating, Releasing);
    case Reactivating => ControlMoves(db, run, row.(status := Active), false, ok, Releasing, Releasing);
  }

  lemma RunStepMoves(db: Db, run: Run, ok: bool)
    requires FenceInv(db, run)
    ensures var (db', run') := Step(db, run, ok); StepMoves(db, db', run, Switches(db, run, ok)) && FenceInv(db', run')
  {
    match run.pc
    case Enter(state) => EnterMoves(db, run, state, ok);
    case Journal(_) => JournalMoves(db, run, ok);
    case Creating => LoadingMoves(db, run, ok);
    case LoadingControl => LoadingMoves(db, run, ok);
    case ReadingSnapshot => ReadingMoves(db, run, ok);
    case WritingSnapshot => WritingMoves(db, run, ok);
    case Freezing => ControlStepMoves(db, run, ok);
    case MarkingDegraded => ControlStepMoves(db, run, ok);
    case Unfreezing => ControlStepMoves(db, run, ok);
    case Thawing => ControlStepMoves(db, run, ok);
    case Reactivating => ControlStepMoves(db, run, ok);
    case _ => QuietMoves(db, run, ok);
  }

  /** Another writer leaves a run's record current and as it was, or makes it stale for good. */
  lemma OthersKeepFenceInv(db: Db, db': Db, run: Run)
    requires FenceInv(db, run) && ControlMoved(db, db')
    ensures FenceInv(db', run)
  {
  }

  lemma EventKeepsInv(world: World, event: Event)
    requires WorldInv(world)
    ensures WorldInv(Next(world, event))
    ensures event.RunStep? && event.id in world.runs ==>
              StepMoves(world.db, Next(world, event).db, world.runs[event.id], IsSwitch(world, event))
    ensures !event.RunStep? ==>
              ExpectedGeneration(Next(world, event).db.control) - ExpectedGeneration(world.db.control) in {0, 1}
  {
    var after := Next(world, event);
    if event.RunStep? && event.id in world.runs { RunStepMoves(world.db, world.runs[event.id], event.ok); }
    forall id | id in after.runs && id in world.runs && !(event.RunStep? && event.id == id)
      ensures FenceInv(after.db, after.runs[id])
    {
      OthersKeepFenceInv(world.db, after.db, world.runs[id]);
    }
  }

  /** A run that read no snapshot switches only where there still is none. */
  lemma FirstSwitchReplacesNothing(world: World, event: Event)
    requires WorldInv(world) && IsSwitch(world, event) && world.runs[event.id].existing.None?
    requires world.runs[event.id].unsaved.None?
    ensures world.db.snapshot.None? && Overwritten(world, event) == 0
  {
  }

  /** Marking the tenant DEGRADED always writes its record, also where it is DEGRADED already: every other run that
      has loaded the record is stale from then on. */
  lemma MarkingMakesOthersStale(world: World, id: nat, other: nat)
    requires WorldInv(world) && id in world.runs && other in world.runs && other != id
    requires world.runs[id].pc == MarkingDegraded
    requires Next(world, RunStep(id, true)).runs[id].pc == Enter(Switched)
    ensures var after := Next(world, RunStep(id, true));
      after.db.control.status == Degraded && !IsCurrent(after.db, after.runs[other])
  {
    assert FenceInv(world.db, world.runs[other]);
  }

  /** Generations published outside failover runs; a late write may take some back. */
  function Publications(world: World, events: seq<Event>): int {
    if events == [] then 0
    else
      var before, event := After(world, events[..|events| - 1]), events[|events| - 1];
      Publications(world, events[..|events| - 1])
      + if event.Publish? then Generation(Next(before, event).db.snapshot) - Generation(before.db.snapshot) else 0
  }

  function Burns(world: World, events: seq<Event>): nat {
    if events == [] then 0
    else
      Burns(world, events[..|events| - 1])
      + if IsBurn(After(world, events[..|events| - 1]), events[|events| - 1]) then 1 else 0
  }

  function Overwrites(world: World, events: seq<Event>): int {
    if events == [] then 0
    else
      Overwrites(world, events[..|events| - 1])
      + Overwritten(After(world, events[..|events| - 1]), events[|events| - 1])
  }

  /** What one event makes of the gap. */
  lemma EventMovesGap(world: World, event: Event)
    requires WorldInv(world)
    ensures WorldInv(Next(world, event))
    ensures Gap(Next(world, event).db) ==
            Gap(world.db)
            + (if event.Publish? then Generation(Next(world, event).db.snapshot) - Generation(world.db.snapshot) else 0)
            - (if IsBurn(world, event) then 1 else 0) - Overwritten(world, event)
  {
    EventKeepsInv(world, event);
  }

  /** Over every schedule, from any record and with any number of overlapping runs: generation minus expected
      generation changes by publications, by burns, which narrow it by one each, and by what switches overwrite;
      otherwise a switch leaves it as it is. */
  lemma {:induction false} GapIsConserved(world: World, events: seq<Event>)
    requires WorldInv(world)
    ensures WorldInv(After(world, events))
    ensures Gap(After(world, events).db) ==
            Gap(world.db) + Publications(world, events) - Burns(world, events) - Overwrites(world, events)
  {
    if events != [] {
      var shorter, event := events[..|events| - 1], events[|events| - 1];
      GapIsConserved(world, shorter);
      EventMovesGap(After(world, shorter), event);
    }
  }

  /** A run that stands to write has read the stored snapshot, unless another writer has made its record stale. */
  ghost predicate ReadsStored(world: World) {
    forall id :: id in world.runs && StandsToWrite(world.runs[id]) && IsCurrent(world.db, world.runs[id]) ==>
      world.runs[id].existing == world.db.snapshot
  }

  /** `createSnapshot` taken as atomic: nothing is published while a run whose record is current stands to write. */
  ghost predicate AtomicSwitch(world: World, event: Event) {
    event.Publish? && event.id in world.publishers && Writes(world.db, world.publishers[event.id]) ==>
      forall id :: id in world.runs && StandsToWrite(world.runs[id]) ==> !IsCurrent(world.db, world.runs[id])
  }

  ghost predicate AtomicSchedule(world: World, events: seq<Event>) {
    events != [] ==>
      && AtomicSchedule(world, events[..|events| - 1])
      && AtomicSwitch(After(world, events[..|events| - 1]), events[|events| - 1])
  }

  /** The run is left standing only by a step that changes no row. */
  ghost predicate LeftStanding(db: Db, db': Db, run: Run, run': Run) {
    StandsToWrite(run') ==>
      db' == db && StandsToWrite(run) && run'.existing == run.existing && (IsCurrent(db, run') ==> IsCurrent(db, run))
  }

  lemma FlushKeepsStanding(db: Db, run: Run, ok: bool, next: Pc, failed: Pc)
    requires next != WritingSnapshot && failed != WritingSnapshot
    ensures var (db', run') := StepFlush(db, run, ok, next, failed); LeftStanding(db, db', run, run')
  {
    if ok && Flush(db, run).Some? {
      assert Flush(db, run).value.1.unsaved == None;
    } else {
      assert StepFlush(db, run, ok, next, failed) == (db, ThrowTo(run, failed));
    }
  }

  lemma EnterKeepsStanding(db: Db, run: Run, state: OperationState, ok: bool)
    requires FenceInv(db, run) && run.pc == Enter(state)
    ensures var (db', run') := StepEnter(db, run, state, ok); LeftStanding(db, db', run, run')
  {
    var next := ApplyTransition(run.operation, state);
    if next.Some? { FlushKeepsStanding(db, run.(operation := next.value), ok, Journal(state), Caught(state)); }
  }

  lemma JournalKeepsStanding(db: Db, run: Run, state: OperationState, ok: bool)
    requires FenceInv(db, run) && run.pc == Journal(state)
    ensures var (db', run') := StepJournal(db, run, state, ok);
      StandsToWrite(run') ==>
        && db'.snapshot == db.snapshot && db'.control == db.control
        && StandsToWrite(run) && run' == run.(pc := run'.pc, threw := run'.threw)
  {
  }

  lemma OtherStepKeepsStanding(db: Db, run: Run, ok: bool)
    requires FenceInv(db, run) && run.pc != ReadingSnapshot && !run.pc.Enter? && !run.pc.Journal?
    ensures var (db', run') := Step(db, run, ok); LeftStanding(db, db', run, run')
  {
  }

  /** A run comes to stand before its write by reading the snapshot. */
  lemma StepKeepsStanding(db: Db, run: Run, ok: bool)
    requires FenceInv(db, run)
    ensures var (db', run') := Step(db, run, ok);
      StandsToWrite(run') ==>
        && db'.snapshot == db.snapshot
        && if run.pc == ReadingSnapshot then run'.existing == db.snapshot
           else StandsToWrite(run) && run'.existing == run.existing && (IsCurrent(db', run') ==> IsCurrent(db, run))
  {
    if run.pc.Enter? { EnterKeepsStanding(db, run, run.pc.state, ok); }
    else if run.pc.Journal? { JournalKeepsStanding(db, run, run.pc.state, ok); }
    else if run.pc != ReadingSnapshot { OtherStepKeepsStanding(db, run, ok); }
  }

  lemma StepReadsStored(db: Db, run: Run, ok: bool)
    requires FenceInv(db, run)
    requires StandsToWrite(run) && IsCurrent(db, run) ==> run.existing == db.snapshot
    ensures var (db', run') := Step(db, run, ok);
      && (StandsToWrite(run') && IsCurrent(db', run') ==> run'.existing == db'.snapshot)
      && (db'.snapshot != db.snapshot ==> db'.control.version > db.control.version)
      && (Switches(db, run, ok) ==> run.existing == db.snapshot)
  {
    RunStepMoves(db, run, ok);
    StepKeepsStanding(db, run, ok);
  }

  lemma EventKeepsReadsStored(world: World, event: Event)
    requires WorldInv(world) && ReadsStored(world) && AtomicSwitch(world, event)
    ensures ReadsStored(Next(world, event)) && Overwritten(world, event) == 0
  {
    EventKeepsInv(world, event);
    if event.RunStep? && event.id in world.runs {
      StepReadsStored(world.db, world.runs[event.id], event.ok);
    }
  }

  /** With atomic publications nothing is overwritten. */
  lemma {:induction false} AtomicOverwritesNothing(world: World, events: seq<Event>)
    requires WorldInv(world) && ReadsStored(world) && AtomicSchedule(world, events)
    ensures ReadsStored(After(world, events)) && Overwrites(world, events) == 0
  {
    if events != [] {
      AtomicOverwritesNothing(world, events[..|events| - 1]);
      GapIsConserved(world, events[..|events| - 1]);
      EventKeepsReadsStored(After(world, events[..|events| - 1]), events[|events| - 1]);
    }
  }

  /** A failover switches only when what it read is what the record expects, and then generation and fence both stand
      one above it; with atomic publications that is after exactly as many burns as there were generations to catch
      up with. */
  lemma SwitchClosesTheGap(world: World, events: seq<Event>, event: Event)
    requires WorldInv(world) && IsSwitch(After(world, events), event)
    ensures var before, after := After(world, events), Next(After(world, events), event).db;
      Generation(after.snapshot) == after.control.fenceGeneration == ExpectedGeneration(before.db.control) + 1
        == Generation(before.runs[event.id].existing) + 1
    ensures ReadsStored(world) && AtomicSchedule(world, events + [event]) ==>
              && Burns(world, events) == Gap(world.db) + Publications(world, events)
              && Generation(After(world, events).db.snapshot) == ExpectedGeneration(After(world, events).db.control)
  {
    GapIsConserved(world, events);
    EventKeepsInv(After(world, events), event);
    if ReadsStored(world) && AtomicSchedule(world, events + [event]) {
      assert (events + [event])[..|events|] == events;
      AtomicOverwritesNothing(world, events);
      EventKeepsReadsStored(After(world, events), event);
    }
  }
}
