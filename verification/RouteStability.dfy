/** Whether a DEGRADED tenant stays routed to its secondary region, over the schedules of ControlPlaneWorld, and
    which late publications bring it back to the primary one. */
module RouteStability {
  import opened Wrappers
  import opened OperationTable
  import opened RoutingPlane
  import opened FailoverSaga
  import opened FailoverRuns
  import FailoverOutcome
  import opened ControlPlaneWorld

  type Event = ControlPlaneWorld.Event

  ghost predicate OnSecondary(db: Db) {
    db.snapshot.Some? && db.snapshot.value.targets.primaryRegion == db.control.secondaryRegion
  }

  ghost predicate ServesSecondary(db: Db) {
    db.snapshot.None? || IsExpired(db.snapshot.value, db.now) || OnSecondary(db)
  }

  /** For a DEGRADED tenant that is what decides where a resolved route goes. */
  lemma ResolvesToSecondaryIff(db: Db, endpoints: Endpoints)
    requires db.control.status == Degraded && (db.snapshot.Some? ==> Verifies(db.snapshot.value, db.secret))
    ensures var route := Resolve(db.snapshot, db.control, Some(endpoints), db.now, db.secret).1;
      route.Some? && (route.value.primaryRegion == db.control.secondaryRegion <==> ServesSecondary(db))
  {
  }

  /** A run has published its switch or holds DEGRADED in a current record, but DEGRADED is not saved yet. */
  ghost predicate DegradedPending(world: World) {
    && world.db.control.status != Degraded
    && exists id :: id in world.runs && HoldsSwitch(world.db, world.runs[id])
  }

  ghost predicate HoldsSwitch(db: Db, run: Run) {
    IsCurrent(db, run) && (run.pc == MarkingDegraded || run.control.value.row.status == Degraded)
  }

  /** A route decided before the failover: on a record not DEGRADED yet, or reused from a snapshot off the secondary
      region. */
  predicate IsLate(basis: Basis, secondaryRegion: Region) {
    match basis
    case Evaluated(control, _) => control.status != Degraded
    case Reused(snapshot) => snapshot.targets.primaryRegion != secondaryRegion
  }

  predicate PublishesRoute(world: World, event: Event) {
    event.Publish? && event.id in world.publishers && Writes(world.db, world.publishers[event.id])
  }

  predicate PublishesLate(world: World, event: Event) {
    PublishesRoute(world, event) && IsLate(world.publishers[event.id].basis.value, world.db.control.secondaryRegion)
  }

  ghost predicate Undoes(world: World, event: Event) {
    PublishesLate(world, event) && (world.db.control.status == Degraded || DegradedPending(world))
  }

  /** The last write of the stored route, by a switch or by a publication, is one that undid a switch. */
  ghost predicate LastWriteUndid(world: World, events: seq<Event>) {
    events != [] &&
      var shorter, event := events[..|events| - 1], events[|events| - 1];
      var before := After(world, shorter);
      var written := IsSwitch(before, event) || PublishesRoute(before, event);
      if written then Undoes(before, event) else LastWriteUndid(world, shorter)
  }

  /** What holds of a run and the rows whatever is published. */
  ghost predicate BaseInv(db: Db, run: Run) {
    && (db.snapshot.Some? ==> Verifies(db.snapshot.value, db.secret))
    && (run.control.Some? ==>
          var row := run.control.value.row;
          && row.primaryRegion == db.control.primaryRegion && row.secondaryRegion == db.control.secondaryRegion
          && row.version <= db.control.version)
    && (run.pc in {WritingSnapshot, MarkingDegraded} ==> run.control.Some? && run.unsaved == None)
    && (run.unsaved.Some? ==>
          Verifies(run.unsaved.value, db.secret)
              && run.unsaved.value.targets.primaryRegion == db.control.secondaryRegion)
  }

  /** A run that holds DEGRADED in a current record found the route on the secondary region. */
  ghost predicate ServedInv(db: Db, run: Run) {
    db.control.status == Degraded || HoldsSwitch(db, run) ==> ServesSecondary(db)
  }

  /** What one run and the rows keep while it moves. */
  ghost predicate RowsInv(db: Db, run: Run) {
    BaseInv(db, run) && ServedInv(db, run)
  }

  ghost predicate PublisherInv(db: Db, publisher: Publisher) {
    publisher.basis.Some? && publisher.basis.value.Evaluated? ==>
      && publisher.basis.value.control.primaryRegion == db.control.primaryRegion
      && publisher.basis.value.control.secondaryRegion == db.control.secondaryRegion
  }

  /** Everything the worlds of this module keep; while a switch is undone, the stored route is off the secondary
      region. */
  ghost predicate Inv(world: World, undone: bool) {
    && WorldInv(world)
    && (world.db.snapshot.Some? ==> Verifies(world.db.snapshot.value, world.db.secret))
    && (forall id :: id in world.runs ==> BaseInv(world.db, world.runs[id]))
    && (forall id :: id in world.publishers ==> PublisherInv(world.db, world.publishers[id]))
    && if undone then world.db.snapshot.Some? && !OnSecondary(world.db)
       else && (world.db.control.status == Degraded ==> ServesSecondary(world.db))
            && forall id :: id in world.runs ==> ServedInv(world.db, world.runs[id])
  }

  ghost predicate SameRegions(db: Db, db': Db) {
    db'.control.primaryRegion == db.control.primaryRegion && db'.control.secondaryRegion == db.control.secondaryRegion
  }

  /** What a run step may do to the rows as others see them. */
  ghost predicate RowsMoved(db: Db, db': Db, switched: bool) {
    && db'.now == db.now && db'.secret == db.secret && SameRegions(db, db') && ControlMoved(db, db')
    && if switched then OnSecondary(db') else db'.snapshot == db.snapshot
  }

  /** A run step keeps the base, and what a served route needs if it had that before. */
  ghost predicate StepKeeps(db: Db, run: Run, db': Db, run': Run, switched: bool) {
    && RowsMoved(db, db', switched) && BaseInv(db', run')
    && (switched || ServedInv(db, run) ==> ServedInv(db', run'))
  }

  ghost predicate Flushes(run: Run, run': Run) {
    run.unsaved.Some? && run'.unsaved.None?
  }

  lemma FlushKeepsRow(db: Db, run: Run)
    requires BaseInv(db, run) && Flush(db, run).Some?
    ensures var (db', run') := Flush(db, run).value;
      run'.unsaved.None? && StepKeeps(db, run, db', run'.(pc := Releasing), run.unsaved.Some?)
  {
  }

  lemma FlushKeepsRoute(db: Db, run: Run, ok: bool, next: Pc, failed: Pc)
    requires BaseInv(db, run)
    requires next !in {WritingSnapshot, MarkingDegraded} && failed !in {WritingSnapshot, MarkingDegraded}
    ensures var (db', run') := StepFlush(db, run, ok, next, failed); StepKeeps(db, run, db', run', Flushes(run, run'))
  {
    if ok && Flush(db, run).Some? { FlushKeepsRow(db, run); }
  }

  lemma EnterKeepsRoute(db: Db, run: Run, state: OperationState, ok: bool)
    requires BaseInv(db, run) && run.pc == Enter(state)
    ensures var (db', run') := StepEnter(db, run, state, ok); StepKeeps(db, run, db', run', Flushes(run, run'))
  {
    var next := ApplyTransition(run.operation, state);
    if next.Some? { FlushKeepsRoute(db, run.(operation := next.value), ok, Journal(state), Caught(state)); }
  }

  lemma ControlKeepsRoute(db: Db, run: Run, row: Control, touched: bool, ok: bool, next: Pc, failed: Pc)
    requires BaseInv(db, run)
    requires next !in {WritingSnapshot, MarkingDegraded} && failed !in {WritingSnapshot, MarkingDegraded}
    requires var was := Load(db, run).row;
      && row.version == was.version
      && row.primaryRegion == was.primaryRegion && row.secondaryRegion == was.secondaryRegion
      && (row.status == Degraded ==> was.status == Degraded || run.pc == MarkingDegraded)
    ensures var (db', run') := StepControl(db, run, row, touched, ok, next, failed);
      StepKeeps(db, run, db', run', Flushes(run, run'))
  {
    var changed := ChangedRun(db, run, row, touched);
    ChangeKeepsRoute(db, run, row, touched);
    FlushKeepsRoute(db, changed, ok, next, failed);
  }

  lemma ChangeKeepsRoute(db: Db, run: Run, row: Control, touched: bool)
    requires BaseInv(db, run)
    requires var was := Load(db, run).row;
      && row.version == was.version
      && row.primaryRegion == was.primaryRegion && row.secondaryRegion == was.secondaryRegion
      && (row.status == Degraded ==> was.status == Degraded || run.pc == MarkingDegraded)
    ensures var changed := ChangedRun(db, run, row, touched);
      BaseInv(db, changed) && (ServedInv(db, run) ==> ServedInv(db, changed))
  {
  }

  lemma ReadingKeepsRoute(db: Db, run: Run, ok: bool)
    requires BaseInv(db, run) && run.pc == ReadingSnapshot && FenceInv(db, run)
    ensures var (db', run') := Step(db, run, ok); StepKeeps(db, run, db', run', Switches(db, run, ok))
  {
  }

  lemma WritingKeepsRoute(db: Db, run: Run, ok: bool)
    requires BaseInv(db, run) && run.pc == WritingSnapshot && FenceInv(db, run)
    ensures var (db', run') := Step(db, run, ok); StepKeeps(db, run, db', run', Switches(db, run, ok))
  {
  }

  lemma JournalKeepsRoute(db: Db, run: Run, ok: bool)
    requires BaseInv(db, run) && run.pc.Journal?
    ensures var (db', run') := StepJournal(db, run, run.pc.state, ok);
      StepKeeps(db, run, db', run', false) && run'.unsaved == run.unsaved
  {
  }

  lemma QuietKeepsRoute(db: Db, run: Run, ok: bool)
    requires BaseInv(db, run)
    requires run.pc in {Creating, LoadingControl, Checking, Recovering, Reporting, RecordingFailure, Releasing, Done}
    ensures var (db', run') := Step(db, run, ok); StepKeeps(db, run, db', run', false) && run'.unsaved == run.unsaved
  {
  }

  lemma ControlStepKeepsRoute(db: Db, run: Run, ok: bool)
    requires BaseInv(db, run) && run.pc in {Freezing, MarkingDegraded, Unfreezing, Thawing, Reactivating}
    ensures var (db', run') := Step(db, run, ok); StepKeeps(db, run, db', run', Flushes(run, run'))
  {
    var row := Load(db, run).row;
    match run.pc
    case Freezing => ControlKeepsRoute(db, run, row.(isFrozen := true), false, ok, ReadingSnapshot, RecordingFailure);
    case MarkingDegraded =>
      ControlKeepsRoute(db, run, row.(status := Degraded), true, ok, Enter(Switched), RecordingFailure);
    case Unfreezing =>
      ControlKeepsRoute(db, run, row.(isFrozen := false, writeFenceToken := None), false, ok,
                        Enter(Finalized), RecordingFailure);
    case Thawing =>
      ControlKeepsRoute(db, run, row.(isFrozen := false, writeFenceToken := None), false, ok, Reactivating, Releasing);
    case Reactivating => ControlKeepsRoute(db, run, row.(status := Active), false, ok, Releasing, Releasing);
  }

  lemma RunStepKeepsRoute(db: Db, run: Run, ok: bool)
    requires BaseInv(db, run) && FenceInv(db, run)
    ensures var (db', run') := Step(db, run, ok); StepKeeps(db, run, db', run', Switches(db, run, ok))
  {
    match run.pc
    case Enter(state) => EnterKeepsRoute(db, run, state, ok);
    case Journal(_) => JournalKeepsRoute(db, run, ok);
    case ReadingSnapshot => ReadingKeepsRoute(db, run, ok);
    case WritingSnapshot => WritingKeepsRoute(db, run, ok);
    case Freezing => ControlStepKeepsRoute(db, run, ok);
    case MarkingDegraded => ControlStepKeepsRoute(db, run, ok);
    case Unfreezing => ControlStepKeepsRoute(db, run, ok);
    case Thawing => ControlStepKeepsRoute(db, run, ok);
    case Reactivating => ControlStepKeepsRoute(db, run, ok);
    case _ => QuietKeepsRoute(db, run, ok);
  }

  lemma OthersKeepRoute(db: Db, db': Db, run: Run, switched: bool)
    requires BaseInv(db, run) && RowsMoved(db, db', switched)
        && (db'.snapshot.Some? ==> Verifies(db'.snapshot.value, db'.secret))
    ensures BaseInv(db', run)
    ensures switched || ServedInv(db, run) ==>
              IsCurrent(db', run) && HoldsSwitch(db', run) ==> ServesSecondary(db')
  {
  }

  lemma RunEventKeepsInv(world: World, event: Event, undone: bool)
    requires Inv(world, undone) && event.RunStep? && event.id in world.runs
    ensures SameRegions(world.db, Next(world, event).db)
    ensures Inv(Next(world, event), undone && !IsSwitch(world, event))
  {
    EventKeepsInv(world, event);
    RunStepKeepsRoute(world.db, world.runs[event.id], event.ok);
    var after := Next(world, event);
    forall id | id in after.runs && id != event.id
      ensures BaseInv(after.db, after.runs[id])
      ensures !undone || IsSwitch(world, event) ==> HoldsSwitch(after.db, after.runs[id]) ==> ServesSecondary(after.db)
    {
      OthersKeepRoute(world.db, after.db, world.runs[id], IsSwitch(world, event));
    }
  }

  lemma PublishKeepsInv(world: World, event: Event, undone: bool)
    requires Inv(world, undone) && PublishesRoute(world, event)
    requires Undoes(world, event) ==> world.db.control.primaryRegion != world.db.control.secondaryRegion
    ensures Inv(Next(world, event), Undoes(world, event))
  {
    EventKeepsInv(world, event);
    var after := Next(world, event);
    assert PublisherInv(world.db, world.publishers[event.id]);
    assert forall id :: id in world.runs ==>
        (HoldsSwitch(after.db, after.runs[id]) <==> HoldsSwitch(world.db, world.runs[id]));
    assert !PublishesLate(world, event) ==> OnSecondary(after.db);
  }

  lemma QuietEventKeepsInv(world: World, event: Event, undone: bool)
    requires Inv(world, undone) && !(event.RunStep? && event.id in world.runs) && !PublishesRoute(world, event)
    ensures Inv(Next(world, event), undone)
  {
    EventKeepsInv(world, event);
  }

  /** One event of any kind keeps a DEGRADED tenant served from its secondary region unless it undoes a switch, and
      the next write of the route that does not, heals it. */
  lemma EventKeepsRoute(world: World, event: Event, undone: bool)
    requires Inv(world, undone)
    requires Undoes(world, event) ==> world.db.control.primaryRegion != world.db.control.secondaryRegion
    ensures SameRegions(world.db, Next(world, event).db)
    ensures Inv(Next(world, event),
                if IsSwitch(world, event) || PublishesRoute(world, event) then Undoes(world, event) else undone)
  {
    if event.RunStep? && event.id in world.runs { RunEventKeepsInv(world, event, undone); }
    else if PublishesRoute(world, event) { PublishKeepsInv(world, event, undone); }
    else { QuietEventKeepsInv(world, event, undone); }
  }

  ghost predicate NothingUndone(world: World, events: seq<Event>) {
    events != [] ==>
      && NothingUndone(world, events[..|events| - 1])
      && !Undoes(After(world, events[..|events| - 1]), events[|events| - 1])
  }

  lemma {:induction false} ScheduleKeepsRoute(world: World, events: seq<Event>)
    requires Inv(world, false)
    requires world.db.control.primaryRegion != world.db.control.secondaryRegion || NothingUndone(world, events)
    ensures SameRegions(world.db, After(world, events).db)
    ensures Inv(After(world, events), LastWriteUndid(world, events))
    ensures NothingUndone(world, events) ==> !LastWriteUndid(world, events)
  {
    if events != [] {
      ScheduleKeepsRoute(world, events[..|events| - 1]);
      EventKeepsRoute(After(world, events[..|events| - 1]), events[|events| - 1],
                      LastWriteUndid(world, events[..|events| - 1]));
    }
  }

  /** From any tenant whose route is right to begin with: while it is DEGRADED every resolved route has its secondary
      region as primary, across overlapping failovers and drills, expiry, re-evaluation, migration snapshots, crashes
      and status updates, as long as no route decided before the switch is published after it. */
  lemma DegradedRoutesToSecondary(db: Db, events: seq<Event>, endpoints: Option<Endpoints>)
    requires db.snapshot.Some? ==> Verifies(db.snapshot.value, db.secret)
    requires db.control.status == Degraded ==> ServesSecondary(db)
    requires NothingUndone(World(db, map[], map[]), events)
    ensures var later := After(World(db, map[], map[]), events).db;
            var route := Resolve(later.snapshot, later.control, endpoints, later.now, later.secret).1;
      later.control.status == Degraded && route.Some? ==> route.value.primaryRegion == later.control.secondaryRegion
  {
    ScheduleKeepsRoute(World(db, map[], map[]), events);
  }

  // ----- which publications break the route -----

  /** The exact condition, for two different regions and at every point of every schedule: a DEGRADED tenant is
      served from its secondary region unless the last write of its route undid a switch and has not expired. */
  lemma ServesIffLastWriteStands(world: World, events: seq<Event>)
    requires Inv(world, false) && world.db.control.primaryRegion != world.db.control.secondaryRegion
    ensures var later := After(world, events).db;
      later.control.status == Degraded ==>
        (ServesSecondary(later) <==>
         !LastWriteUndid(world, events) || (later.snapshot.Some? && IsExpired(later.snapshot.value, later.now)))
  {
    ScheduleKeepsRoute(world, events);
  }

  /** No route decided before the switch is published in its window, between its snapshot and the flush of DEGRADED. */
  ghost predicate TimelySchedule(world: World, events: seq<Event>) {
    events != [] ==>
      && TimelySchedule(world, events[..|events| - 1])
      && var before := After(world, events[..|events| - 1]);
         DegradedPending(before) ==> !PublishesLate(before, events[|events| - 1])
  }

  ghost predicate AlwaysServes(world: World, events: seq<Event>) {
    && (After(world, events).db.control.status == Degraded ==> ServesSecondary(After(world, events).db))
    && (events != [] ==> AlwaysServes(world, events[..|events| - 1]))
  }

  /** No route decided before the switch is published while the tenant is DEGRADED. */
  ghost predicate NeverLate(world: World, events: seq<Event>) {
    events != [] ==>
      && NeverLate(world, events[..|events| - 1])
      && var before := After(world, events[..|events| - 1]);
         before.db.control.status == Degraded ==> !PublishesLate(before, events[|events| - 1])
  }

  lemma LatePublicationBreaks(world: World, event: Event)
    requires Inv(world, false) && PublishesLate(world, event) && world.db.control.status == Degraded
    requires world.db.control.primaryRegion != world.db.control.secondaryRegion
    ensures Next(world, event).db.control.status == Degraded && !ServesSecondary(Next(world, event).db)
  {
    assert PublisherInv(world.db, world.publishers[event.id]);
  }

  lemma {:induction false} TimelyAndNeverLate(world: World, events: seq<Event>)
    requires TimelySchedule(world, events) && NeverLate(world, events)
    ensures NothingUndone(world, events)
  {
    if events != [] { TimelyAndNeverLate(world, events[..|events| - 1]); }
  }

  /** Over a whole schedule: with a timely switch window, a DEGRADED tenant is served from its secondary region
      throughout exactly when no route decided before the switch is published while it is DEGRADED. */
  lemma {:induction false} ServesIffNeverLate(world: World, events: seq<Event>)
    requires Inv(world, false) && TimelySchedule(world, events)
    requires world.db.control.primaryRegion != world.db.control.secondaryRegion
    ensures AlwaysServes(world, events) <==> NeverLate(world, events)
  {
    if events != [] {
      var shorter, event := events[..|events| - 1], events[|events| - 1];
      ServesIffNeverLate(world, shorter);
      if NeverLate(world, shorter) {
        TimelyAndNeverLate(world, shorter);
        ScheduleKeepsRoute(world, shorter);
        var before := After(world, shorter);
        if before.db.control.status == Degraded && PublishesLate(before, event) {
          LatePublicationBreaks(before, event);
        } else {
          EventKeepsRoute(before, event, false);
        }
      }
    }
  }

  // ----- a late evaluation -----

  function StepsOf(id: nat, n: nat): seq<Event> {
    if n == 0 then [] else [RunStep(id, true)] + StepsOf(id, n - 1)
  }

  lemma {:induction false} AfterFirst(world: World, event: Event, rest: seq<Event>)
    ensures After(world, [event] + rest) == After(Next(world, event), rest)
  {
    var events := [event] + rest;
    if rest == [] {
      assert events == [event] && [event][..0] == [];
      assert After(world, [event]) == Next(After(world, []), event);
    } else {
      AfterFirst(world, event, rest[..|rest| - 1]);
      assert events[..|events| - 1] == [event] + rest[..|rest| - 1];
    }
  }

  lemma OneStepAlone(world: World, id: nat, n: nat) returns (after: World)
    requires id in world.runs
    ensures after == Next(world, RunStep(id, true)) && id in after.runs && after.publishers == world.publishers
    ensures Exec(after.db, after.runs[id], {}, n).0 == Exec(world.db, world.runs[id], {}, n + 1).0
  {
    after := Next(world, RunStep(id, true));
    if world.runs[id].pc == Done { assert after.db == world.db && after.runs[id] == world.runs[id]; }
  }

  /** A run that nothing disturbs, as a schedule. */
  lemma {:induction false} RunAlone(world: World, id: nat, n: nat)
    requires id in world.runs
    ensures After(world, StepsOf(id, n)).db == Exec(world.db, world.runs[id], {}, n).0
    ensures After(world, StepsOf(id, n)).publishers == world.publishers
    decreases n
  {
    if n > 0 {
      AfterFirst(world, RunStep(id, true), StepsOf(id, n - 1));
      var after := OneStepAlone(world, id, n - 1);
      RunAlone(after, id, n - 1);
    }
  }

  lemma SuccessfulRun(db: Db, key: string, token: string) returns (end: Db, run: Run)
    requires FailoverOutcome.Succeeds(db, key, {})
    ensures (end, run) == Exec(db, Start(key, token), {}, 26)
    ensures end.control.status == Degraded && OnSecondary(end)
        && Generation(end.snapshot) == Generation(db.snapshot) + 1
    ensures end.control.primaryRegion == db.control.primaryRegion
  {
    ExecCompletes(db, Start(key, token), {}, 26);
    FailoverOutcome.OutcomeOfRun(db, key, token, {});
    ExecKeepsInv(db, db, Start(key, token), {}, 26);
    end, run := Complete(db, Start(key, token), {}).0, Complete(db, Start(key, token), {}).1;
    InvImpliesFence(db, end, run);
    SwitchedIsOnSecondary(db, end);
  }

  lemma SwitchedIsOnSecondary(db: Db, end: Db)
    requires SwitchedRoute(db, end) && end.control.secondaryRegion == db.control.secondaryRegion
    ensures OnSecondary(end) && Generation(end.snapshot) == Generation(db.snapshot) + 1
  {
  }

  lemma LateWrite(world: World, stale: Snapshot, control: Control, endpoints: Endpoints)
    requires world.publishers == map[0 := Publisher(Some(stale), Some(Evaluated(control, endpoints)))]
    requires control.status != Degraded
    ensures var end := Next(world, Event.Publish(0)).db;
      && end.control == world.db.control && end.snapshot.Some?
      && end.snapshot.value.generation == stale.generation + 1
      && end.snapshot.value.targets.primaryRegion == control.primaryRegion
  {
  }

  /** An evaluation that finds an expired snapshot and an undegraded record, a whole successful failover, and then
      the evaluation's write: the DEGRADED tenant is back on its primary region, under the very generation of the
      switch. */
  lemma LateEvaluationUndoesSwitch(db: Db, key: string, token: string, endpoints: Endpoints)
    requires FailoverOutcome.Succeeds(db, key, {}) && db.control.status != Degraded
    requires db.snapshot.Some? && Verifies(db.snapshot.value, db.secret) && IsExpired(db.snapshot.value, db.now)
    ensures var read := Next(Next(World(db, map[], map[]), ReadSnapshot(0)), Decide(0, Some(endpoints)));
            var switched := After(Next(read, Begin(1, key, token)), StepsOf(1, 26));
            var end := Next(switched, Event.Publish(0)).db;
      && switched.db.control.status == Degraded && OnSecondary(switched.db)
      && end.control == switched.db.control && Generation(end.snapshot) == Generation(switched.db.snapshot)
      && end.snapshot.value.targets.primaryRegion == end.control.primaryRegion
  {
    var read := Next(Next(World(db, map[], map[]), ReadSnapshot(0)), Decide(0, Some(endpoints)));
    assert read == World(db, map[], map[0 := Publisher(db.snapshot, Some(Evaluated(db.control, endpoints)))]);
    var begun := Next(read, Begin(1, key, token));
    RunAlone(begun, 1, 26);
    var end, run := SuccessfulRun(db, key, token);
    assert After(begun, StepsOf(1, 26)).db == end;
    LateWrite(After(begun, StepsOf(1, 26)), db.snapshot.value, db.control, endpoints);
  }
}
