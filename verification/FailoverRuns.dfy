/** What every failover run leaves behind, whichever awaited calls fail and wherever it crashes. */
module FailoverRuns {
  import opened Wrappers
  import opened OperationTable
  import opened RoutingPlane
  import opened FailoverSaga

  /** The control row once a freeze has been flushed. */
  function FrozenControl(control: Control): Control {
    if control.isFrozen then control else control.(isFrozen := true, version := control.version + 1)
  }

  /** The generation a failover from this control row will expect of the snapshot. */
  function EffectiveFence(control: Control): nat {
    ExpectedGeneration(FrozenControl(control))
  }

  /** The operation a call with this key works on: the stored one, or a new one. */
  function OperationOf(db: Db, key: string): Operation {
    if key in db.operations then db.operations[key] else NewOperation(Failover)
  }

  // ----- the invariant of a run that starts from db0 -----

  ghost predicate Untouched(db0: Db, db: Db) {
    db.control == db0.control && db.snapshot == db0.snapshot
  }

  /** The snapshot is the one a failover from db0 publishes, whenever it was issued. */
  ghost predicate IsSwitchOf(db0: Db, snapshot: Snapshot) {
    && Generation(db0.snapshot) == EffectiveFence(db0.control)
    && snapshot == NextSnapshot(db0.snapshot, SwitchTargets(db0.control), snapshot.issuedAt, db0.secret)
  }

  ghost predicate SwitchedRoute(db0: Db, db: Db) {
    db.snapshot.Some? && IsSwitchOf(db0, db.snapshot.value)
  }

  /** A switch that could not be saved waits for the rollback's flush, together with the raised fence. */
  ghost predicate UnsavedSwitch(db0: Db, db: Db, run: Run) {
    run.unsaved.Some? ==>
      && run.pc in {RecordingFailure, Enter(OperationState.Rollback), Releasing, Done}
      && db.snapshot == db0.snapshot && db0.snapshot.Some? && IsSwitchOf(db0, run.unsaved.value)
      && run.control.Some? && run.control.value.dirty
      && run.control.value.row.fenceGeneration == EffectiveFence(db0.control) + 1
  }

  /** Either the route is switched and the fence stands one above the old generation, or the route is as before
      and the fence is as before or one above what this run expected. */
  ghost predicate FenceKept(db0: Db, db: Db, control: Control) {
    var next := EffectiveFence(db0.control) + 1;
    && control.primaryRegion == db0.control.primaryRegion && control.secondaryRegion == db0.control.secondaryRegion
    && ((SwitchedRoute(db0, db) && control.fenceGeneration == next)
        || (db.snapshot == db0.snapshot && control.fenceGeneration in {db0.control.fenceGeneration, next}))
  }

  ghost predicate Synced(db: Db, run: Run) {
    run.control.Some? ==>
      run.control.value.row.version == db.control.version
          && (run.control.value.dirty || run.control.value.row == db.control)
  }

  ghost predicate Clean(db: Db, run: Run) {
    run.control == Some(Managed(db.control, false))
  }

  ghost predicate Holds(db: Db, run: Run, state: OperationState) {
    run.key in db.operations && db.operations[run.key] == run.operation && run.operation.state == state
  }

  /** What is stored when the forward path stands at or behind the switch. */
  ghost predicate SwitchedRow(db0: Db, db: Db, run: Run, status: TenantStatus, frozen: bool) {
    && Clean(db, run) && SwitchedRoute(db0, db) && FenceKept(db0, db, db.control)
    && db.control.isFrozen == frozen && db.control.status == status
  }

  /** On the failure path: the memory row is the saved one, or a transition of it whose flush failed. */
  ghost predicate Failing(db0: Db, db: Db, run: Run) {
    && run.key in db.operations
    && FenceKept(db0, db, db.control)
    && (run.control.Some? ==> FenceKept(db0, db, run.control.value.row))
    && var saved := db.operations[run.key];
       && run.operation.opType == saved.opType
       && (run.operation == saved
            || (!IsClosing(saved.state) && !IsInvalidTransition(saved.state, run.operation.state)))
       && (run.operation.state == Finalized ==>
             && !db.control.isFrozen && db.control.status == Degraded && db.control.writeFenceToken == None
             && saved.state in {Switched, Finalized} && SwitchedRoute(db0, db))
       && (run.operation.state == OperationState.Rollback ==>
             db == db0 && run.operation == saved && run.control == None)
  }

  ghost predicate Closed(db0: Db, db: Db, run: Run) {
    FenceKept(db0, db, db.control) && (run.control.Some? ==> FenceKept(db0, db, run.control.value.row))
  }

  ghost predicate FoundOperation(db0: Db, db: Db, run: Run) {
    && run.key in db.operations && db.operations[run.key] == run.operation && run.operation.state != Finalized
    && run.operation == OperationOf(db0, run.key)
    && (run.key in db0.operations ==> db == db0)
  }

  ghost predicate EnterInv(db0: Db, db: Db, run: Run, state: OperationState) {
    match state
    case Preparing => FoundOperation(db0, db, run) && Untouched(db0, db) && run.control == None
    case Validating => Holds(db, run, Preparing) && Untouched(db0, db) && Clean(db, run)
    case Switching => Holds(db, run, Validating) && Untouched(db0, db) && Clean(db, run)
    case Switched => Holds(db, run, Switching) && SwitchedRow(db0, db, run, Degraded, true)
    case Finalized =>
      Holds(db, run, Switched) && SwitchedRow(db0, db, run, Degraded, false) && db.control.writeFenceToken == None
    case Rollback => Failing(db0, db, run)
    case _ => false
  }

  ghost predicate JournalInv(db0: Db, db: Db, run: Run, state: OperationState) {
    Holds(db, run, state) &&
    match state
    case Preparing => Untouched(db0, db) && run.control == None
    case Validating => Untouched(db0, db) && Clean(db, run)
    case Switching => Untouched(db0, db) && Clean(db, run)
    case Switched => SwitchedRow(db0, db, run, Degraded, true)
    case Finalized => SwitchedRow(db0, db, run, Degraded, false) && db.control.writeFenceToken == None
    case Rollback => Closed(db0, db, run)
    case _ => false
  }

  ghost predicate PcInv(db0: Db, db: Db, run: Run) {
    match run.pc
    case Creating => db == db0 && run.control == None
    case Enter(state) => EnterInv(db0, db, run, state)
    case Journal(state) => JournalInv(db0, db, run, state)
    case LoadingControl => Holds(db, run, Preparing) && Untouched(db0, db) && run.control == None
    case Checking => Holds(db, run, Validating) && Untouched(db0, db) && Clean(db, run)
    case Freezing => Holds(db, run, Switching) && Untouched(db0, db) && Clean(db, run)
    case ReadingSnapshot =>
      Holds(db, run, Switching) && Clean(db, run)
      && db.control == FrozenControl(db0.control) && db.snapshot == db0.snapshot
    case WritingSnapshot =>
      && Holds(db, run, Switching)
      && db.control == FrozenControl(db0.control) && db.snapshot == db0.snapshot == run.existing
      && Generation(db0.snapshot) == EffectiveFence(db0.control)
      && run.control == Some(Managed(db.control.(writeFenceToken := Some(run.token),
                                                 fenceGeneration := EffectiveFence(db0.control) + 1), true))
    case MarkingDegraded => Holds(db, run, Switching) && SwitchedRow(db0, db, run, db0.control.status, true)
    case Recovering => Holds(db, run, Switched) && SwitchedRow(db0, db, run, Degraded, true)
    case Unfreezing => Holds(db, run, Switched) && SwitchedRow(db0, db, run, Degraded, true)
    case Reporting =>
      Holds(db, run, Finalized) && SwitchedRow(db0, db, run, Degraded, false) && db.control.writeFenceToken == None
    case RecordingFailure => Failing(db0, db, run)
    case Thawing => Holds(db, run, OperationState.Rollback) && Closed(db0, db, run)
    case Reactivating =>
      && Holds(db, run, OperationState.Rollback) && Closed(db0, db, run) && Clean(db, run)
      && !db.control.isFrozen && db.control.writeFenceToken == None
    case Releasing => Closed(db0, db, run)
    case Done => Closed(db0, db, run)
  }

  ghost predicate RunInv(db0: Db, db: Db, run: Run) {
    && db.secret == db0.secret && Synced(db, run) && UnsavedSwitch(db0, db, run)
    && (run.pc in {Creating, Releasing, Done} || run.operation.opType == OperationOf(db0, run.key).opType)
    && PcInv(db0, db, run)
  }

  /** A flush while nothing but the operation row has changed. */
  lemma CleanFlush(db: Db, run: Run)
    requires run.unsaved == None && (run.control == None || !run.control.value.dirty)
    ensures Flush(db, run) == Some((db.(operations := db.operations[run.key := run.operation]), run))
  {
  }

  lemma PreparingKeepsInv(db0: Db, db: Db, run: Run, ok: bool)
    requires RunInv(db0, db, run) && run.pc == Enter(Preparing)
    ensures var (db', run') := StepEnter(db, run, Preparing, ok); RunInv(db0, db', run')
  {
    CleanFlush(db, run.(operation := run.operation.(state := Preparing)));
  }

  lemma ForwardEnterKeepsInv(db0: Db, db: Db, run: Run, state: OperationState, ok: bool)
    requires RunInv(db0, db, run) && run.pc == Enter(state) && state in {Validating, Switching}
    ensures var (db', run') := StepEnter(db, run, state, ok); RunInv(db0, db', run')
  {
  }

  lemma BackwardEnterKeepsInv(db0: Db, db: Db, run: Run, state: OperationState, ok: bool)
    requires RunInv(db0, db, run) && run.pc == Enter(state) && state in {Switched, Finalized}
    ensures var (db', run') := StepEnter(db, run, state, ok); RunInv(db0, db', run')
  {
  }

  /** The rollback's flush saves what the run has left changed: the fence, and a switch that could not be saved
      before. */
  lemma FailingFlushKeepsFence(db0: Db, db: Db, run: Run)
    requires Failing(db0, db, run) && Synced(db, run) && UnsavedSwitch(db0, db, run) && Flush(db, run).Some?
    ensures var (db', run') := Flush(db, run).value; Closed(db0, db', run') && Synced(db', run') && run'.unsaved == None
  {
  }

  lemma RollbackEnterKeepsInv(db0: Db, db: Db, run: Run, ok: bool)
    requires RunInv(db0, db, run) && run.pc == Enter(OperationState.Rollback)
    ensures var (db', run') := StepEnter(db, run, OperationState.Rollback, ok); RunInv(db0, db', run')
  {
    var next := ApplyTransition(run.operation, OperationState.Rollback);
    if next.Some? && ok {
      RollbackFlushKeepsInv(db0, db, run, run.(operation := next.value));
    }
  }

  lemma RollbackFlushKeepsInv(db0: Db, db: Db, run: Run, closing: Run)
    requires RunInv(db0, db, run) && run.pc == Enter(OperationState.Rollback)
    requires ApplyTransition(run.operation, OperationState.Rollback) == Some(closing.operation)
    requires closing == run.(operation := closing.operation)
    ensures var (db', run') := StepFlush(db, closing, true, Journal(OperationState.Rollback), Releasing);
      RunInv(db0, db', run')
  {
    FailingFlushIgnoresOperation(db, run, closing);
    if Flush(db, run).Some? { FailingFlushKeepsFence(db0, db, run); }
  }

  lemma FailingFlushIgnoresOperation(db: Db, run: Run, closing: Run)
    requires closing == run.(operation := closing.operation)
    ensures Flush(db, closing).Some? <==> Flush(db, run).Some?
    ensures Flush(db, run).Some? ==>
              var (db1, run1) := Flush(db, run).value;
              var (db2, run2) := Flush(db, closing).value;
              && db2 == db1.(operations := db2.operations) && run2 == run1.(operation := closing.operation)
              && db2.operations == db.operations[run.key := closing.operation]
  {
  }

  lemma JournalKeepsInv(db0: Db, db: Db, run: Run, state: OperationState, ok: bool)
    requires RunInv(db0, db, run) && run.pc == Journal(state) && state != OperationState.Rollback
    ensures var (db', run') := StepJournal(db, run, state, ok); RunInv(db0, db', run')
  {
  }

  lemma RollbackJournalKeepsInv(db0: Db, db: Db, run: Run, ok: bool)
    requires RunInv(db0, db, run) && run.pc == Journal(OperationState.Rollback)
    ensures var (db', run') := StepJournal(db, run, OperationState.Rollback, ok); RunInv(db0, db', run')
  {
  }

  lemma FreezingKeepsInv(db0: Db, db: Db, run: Run, ok: bool)
    requires RunInv(db0, db, run) && run.pc == Freezing
    ensures var (db', run') := Step(db, run, ok); RunInv(db0, db', run')
  {
  }

  lemma ReadingSnapshotKeepsInv(db0: Db, db: Db, run: Run, ok: bool)
    requires RunInv(db0, db, run) && run.pc == ReadingSnapshot
    ensures var (db', run') := StepReadingSnapshot(db, run, ok); RunInv(db0, db', run')
  {
  }

  lemma WritingSnapshotKeepsInv(db0: Db, db: Db, run: Run, ok: bool)
    requires RunInv(db0, db, run) && run.pc == WritingSnapshot
    ensures var (db', run') := StepWritingSnapshot(db, run, ok); RunInv(db0, db', run')
  {
  }

  lemma MarkingDegradedKeepsInv(db0: Db, db: Db, run: Run, ok: bool)
    requires RunInv(db0, db, run) && run.pc == MarkingDegraded
    ensures var (db', run') := Step(db, run, ok); RunInv(db0, db', run')
  {
  }

  lemma UnfreezingKeepsInv(db0: Db, db: Db, run: Run, ok: bool)
    requires RunInv(db0, db, run) && run.pc == Unfreezing
    ensures var (db', run') := Step(db, run, ok); RunInv(db0, db', run')
  {
  }

  /** After ROLLBACK is saved every flush of a changed control row keeps the fence. */
  lemma ClosedFlush(db0: Db, db: Db, run: Run)
    requires Closed(db0, db, run) && Synced(db, run) && run.unsaved == None && run.control.Some?
    requires run.operation.state == OperationState.Rollback && Flush(db, run).Some?
    ensures var (db', run') := Flush(db, run).value;
      && Closed(db0, db', run') && Clean(db', run') && Holds(db', run', OperationState.Rollback)
      && db'.secret == db.secret && run' == run.(control := run'.control)
      && db'.control == run.control.value.row.(version := db'.control.version)
  {
  }

  lemma ThawingKeepsInv(db0: Db, db: Db, run: Run, ok: bool)
    requires RunInv(db0, db, run) && run.pc == Thawing
    ensures var (db', run') := Step(db, run, ok); RunInv(db0, db', run')
  {
    var changed := ChangedRun(db, run, Load(db, run).row.(isFrozen := false, writeFenceToken := None), false);
    assert Closed(db0, db, changed) && Synced(db, changed);
    if ok && Flush(db, changed).Some? { ClosedFlush(db0, db, changed); }
  }

  lemma ReactivatingKeepsInv(db0: Db, db: Db, run: Run, ok: bool)
    requires RunInv(db0, db, run) && run.pc == Reactivating
    ensures var (db', run') := Step(db, run, ok); RunInv(db0, db', run')
  {
  }

  lemma LoadingKeepsInv(db0: Db, db: Db, run: Run, ok: bool)
    requires RunInv(db0, db, run) && run.pc in {Creating, LoadingControl}
    ensures var (db', run') := Step(db, run, ok); RunInv(db0, db', run')
  {
  }

  lemma EffectFreeKeepsInv(db0: Db, db: Db, run: Run, ok: bool)
    requires RunInv(db0, db, run) && run.pc in {Checking, Recovering, Reporting, RecordingFailure, Releasing, Done}
    ensures var (db', run') := Step(db, run, ok); RunInv(db0, db', run')
  {
  }

  lemma TransitionKeepsInv(db0: Db, db: Db, run: Run, ok: bool)
    requires RunInv(db0, db, run) && (run.pc.Enter? || run.pc.Journal?)
    ensures var (db', run') := Step(db, run, ok); RunInv(db0, db', run')
  {
    var state := run.pc.state;
    if run.pc.Enter? {
      if state == Preparing { PreparingKeepsInv(db0, db, run, ok); }
      else if state in {Validating, Switching} { ForwardEnterKeepsInv(db0, db, run, state, ok); }
      else if state == OperationState.Rollback { RollbackEnterKeepsInv(db0, db, run, ok); }
      else { BackwardEnterKeepsInv(db0, db, run, state, ok); }
    } else {
      if state == OperationState.Rollback { RollbackJournalKeepsInv(db0, db, run, ok); }
      else { JournalKeepsInv(db0, db, run, state, ok); }
    }
  }

  lemma StepKeepsInv(db0: Db, db: Db, run: Run, ok: bool)
    requires RunInv(db0, db, run)
    ensures var (db', run') := Step(db, run, ok); RunInv(db0, db', run')
  {
    match run.pc
    case Enter(_) => TransitionKeepsInv(db0, db, run, ok);
    case Journal(_) => TransitionKeepsInv(db0, db, run, ok);
    case Creating => LoadingKeepsInv(db0, db, run, ok);
    case LoadingControl => LoadingKeepsInv(db0, db, run, ok);
    case Freezing => FreezingKeepsInv(db0, db, run, ok);
    case ReadingSnapshot => ReadingSnapshotKeepsInv(db0, db, run, ok);
    case WritingSnapshot => WritingSnapshotKeepsInv(db0, db, run, ok);
    case MarkingDegraded => MarkingDegradedKeepsInv(db0, db, run, ok);
    case Unfreezing => UnfreezingKeepsInv(db0, db, run, ok);
    case Thawing => ThawingKeepsInv(db0, db, run, ok);
    case Reactivating => ReactivatingKeepsInv(db0, db, run, ok);
    case _ => EffectFreeKeepsInv(db0, db, run, ok);
  }

  lemma {:induction false} ExecKeepsInv(db0: Db, db: Db, run: Run, fails: set<Pc>, n: nat)
    requires RunInv(db0, db, run)
    ensures var (db', run') := Exec(db, run, fails, n); RunInv(db0, db', run')
    decreases n
  {
    if n > 0 && run.pc != Done {
      StepKeepsInv(db0, db, run, run.pc !in fails);
      var (db', run') := Step(db, run, run.pc !in fails);
      ExecKeepsInv(db0, db', run', fails, n - 1);
    }
  }

  // ----- the fence -----

  /** Whatever fails and wherever it crashes, a failover either switches the route, and then the generation was the
      expected one and both fence and generation stand one above it, or leaves the route alone and moves the fence to
      one above the expected generation or not at all. */
  lemma FailoverMovesFence(db0: Db, key: string, token: string, fails: set<Pc>, n: nat)
    ensures var db := Exec(db0, Start(key, token), fails, n).0;
            var expected := EffectiveFence(db0.control);
      || (db.snapshot == db0.snapshot && db.control.fenceGeneration in {db0.control.fenceGeneration, expected + 1})
      || (&& Generation(db0.snapshot) == expected
          && Generation(db.snapshot) == expected + 1 == db.control.fenceGeneration
          && db.snapshot.value.targets.primaryRegion == db0.control.secondaryRegion)
  {
    ExecKeepsInv(db0, db0, Start(key, token), fails, n);
    var (db, run) := Exec(db0, Start(key, token), fails, n);
    InvImpliesFence(db0, db, run);
  }

  lemma InvImpliesFence(db0: Db, db: Db, run: Run)
    requires RunInv(db0, db, run)
    ensures FenceKept(db0, db, db.control)
  {
  }

  ghost predicate SameOperation(db: Db, db': Db, key: string) {
    (key in db'.operations <==> key in db.operations)
        && (key in db.operations ==> db'.operations[key] == db.operations[key])
  }

  lemma StepKeepsKey(db: Db, run: Run, ok: bool)
    ensures Step(db, run, ok).1.key == run.key
  {
  }

  lemma TransitionKeepsOtherKeys(db: Db, run: Run, ok: bool, other: string)
    requires other != run.key && (run.pc.Enter? || run.pc.Journal?)
    ensures SameOperation(db, Step(db, run, ok).0, other)
  {
  }

  lemma ControlKeepsOtherKeys(db: Db, run: Run, ok: bool, other: string)
    requires other != run.key && run.pc in {Freezing, MarkingDegraded, Unfreezing, Thawing, Reactivating}
    ensures SameOperation(db, Step(db, run, ok).0, other)
  {
  }

  lemma StepKeepsOtherKeys(db: Db, run: Run, ok: bool, other: string)
    requires other != run.key
    ensures SameOperation(db, Step(db, run, ok).0, other)
  {
    if run.pc.Enter? || run.pc.Journal? { TransitionKeepsOtherKeys(db, run, ok, other); }
    else if StepsLeft(run.pc) in {2, 3, 10, 14, 17} { ControlKeepsOtherKeys(db, run, ok, other); }
  }

  /** A failover call changes no operation but the one its key names. */
  lemma {:induction false} OtherKeysKept(db: Db, run: Run, fails: set<Pc>, n: nat, other: string)
    requires other != run.key
    ensures SameOperation(db, Exec(db, run, fails, n).0, other)
    decreases n
  {
    if n > 0 && run.pc != Done {
      StepKeepsOtherKeys(db, run, run.pc !in fails, other);
      StepKeepsKey(db, run, run.pc !in fails);
      var (db', run') := Step(db, run, run.pc !in fails);
      OtherKeysKept(db', run', fails, n - 1, other);
    }
  }
}
