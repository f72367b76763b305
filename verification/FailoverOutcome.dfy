/** The outcome of a failover run as a function of where it started and which awaited calls failed. */
module FailoverOutcome {
  import opened Wrappers
  import opened OperationTable
  import opened RoutingPlane
  import opened FailoverSaga
  import opened FailoverRuns

  /** The awaited calls between creation and the FINALIZED transition, in order from 25 down to 10. */
  predicate IsForward(pc: Pc) {
    10 <= StepsLeft(pc) <= 25
  }

  /** The awaited calls that bring a failed run back to an unfrozen tenant. */
  const RecoveryPcs: set<Pc> := {
    RecordingFailure, Enter(OperationState.Rollback), Journal(OperationState.Rollback), Thawing}

  /** A failing journal append only throws for strict operation types. */
  predicate Throws(pc: Pc, fails: set<Pc>, opType: OperationType) {
    pc in fails && (pc.Journal? ==> IsStrict(opType))
  }

  /** A call that never gets to change anything: creation failed, or the key's operation is already closed. */
  predicate TurnedAway(db: Db, key: string, fails: set<Pc>) {
    Creating in fails || IsClosing(OperationOf(db, key).state)
  }

  /** A call that the table and the status check let through. */
  predicate Eligible(db: Db, key: string) {
    OperationOf(db, key).state == Requested && (db.control.status != Degraded || IsDrill(key))
  }

  predicate FenceMatches(db: Db) {
    Generation(db.snapshot) == EffectiveFence(db.control)
  }

  ghost predicate Succeeds(db: Db, key: string, fails: set<Pc>) {
    && Creating !in fails && Eligible(db, key) && FenceMatches(db)
    && forall pc :: IsForward(pc) ==> !Throws(pc, fails, OperationOf(db, key).opType)
  }

  // ----- running forward -----

  function Next(pc: Pc): Pc {
    match pc
    case Enter(state) => Journal(state)
    case Journal(state) => AfterJournal(state)
    case LoadingControl => Enter(Validating)
    case Checking => Enter(Switching)
    case Freezing => ReadingSnapshot
    case ReadingSnapshot => WritingSnapshot
    case WritingSnapshot => MarkingDegraded
    case MarkingDegraded => Enter(Switched)
    case Recovering => Unfreezing
    case Unfreezing => Enter(Finalized)
    case _ => Done
  }

  lemma ForwardOrder(pc: Pc)
    requires IsForward(pc)
    ensures StepsLeft(Next(pc)) == StepsLeft(pc) - 1
  {
  }

  lemma ForwardDistinct(pc: Pc, pc': Pc)
    requires 9 <= StepsLeft(pc) == StepsLeft(pc') <= 25
    ensures pc == pc'
  {
  }

  lemma AdvanceTransition(db0: Db, db: Db, run: Run, ok: bool)
    requires RunInv(db0, db, run) && IsForward(run.pc) && (run.pc.Enter? || run.pc.Journal?)
    requires ok || (run.pc.Journal? && !IsStrict(OperationOf(db0, run.key).opType))
    requires OperationOf(db0, run.key).state == Requested
    ensures Step(db, run, ok).1.pc == Next(run.pc)
  {
  }

  lemma AdvanceSwitch(db0: Db, db: Db, run: Run)
    requires RunInv(db0, db, run) && run.pc in {Freezing, ReadingSnapshot, WritingSnapshot, MarkingDegraded}
    requires run.pc != Freezing ==> FenceMatches(db0)
    ensures Step(db, run, true).1.pc == Next(run.pc)
  {
  }

  lemma AdvanceOnce(db0: Db, db: Db, run: Run, ok: bool)
    requires RunInv(db0, db, run) && IsForward(run.pc)
    requires ok || (run.pc.Journal? && !IsStrict(OperationOf(db0, run.key).opType))
    requires Eligible(db0, run.key)
    requires StepsLeft(run.pc) <= StepsLeft(ReadingSnapshot) ==> FenceMatches(db0)
    ensures Step(db, run, ok).1.pc == Next(run.pc)
  {
    match run.pc
    case Enter(_) => AdvanceTransition(db0, db, run, ok);
    case Journal(_) => AdvanceTransition(db0, db, run, ok);
    case Freezing => AdvanceSwitch(db0, db, run);
    case ReadingSnapshot => AdvanceSwitch(db0, db, run);
    case WritingSnapshot => AdvanceSwitch(db0, db, run);
    case MarkingDegraded => AdvanceSwitch(db0, db, run);
    case _ =>
  }

  lemma StepKeepsNow(db: Db, run: Run, ok: bool)
    ensures Step(db, run, ok).0.now == db.now
  {
  }

  /** From a forward step, a run in which nothing throws before `target` gets there. */
  lemma {:induction false} Advance(db0: Db, db: Db, run: Run, fails: set<Pc>, target: Pc) returns (db': Db, run': Run)
    requires RunInv(db0, db, run) && 9 <= StepsLeft(target) <= StepsLeft(run.pc) <= 25
    requires Eligible(db0, run.key)
    requires StepsLeft(target) < StepsLeft(ReadingSnapshot) ==> FenceMatches(db0)
    requires forall pc :: StepsLeft(run.pc) >= StepsLeft(pc) > StepsLeft(target)
               ==> !Throws(pc, fails, OperationOf(db0, run.key).opType)
    ensures RunInv(db0, db', run') && run'.pc == target && run'.key == run.key && db'.now == db.now
    ensures Complete(db', run', fails) == Complete(db, run, fails)
    decreases StepsLeft(run.pc)
  {
    if StepsLeft(run.pc) == StepsLeft(target) {
      ForwardDistinct(run.pc, target);
      return db, run;
    }
    ForwardOrder(run.pc);
    AdvanceOnce(db0, db, run, run.pc !in fails);
    StepKeepsInv(db0, db, run, run.pc !in fails);
    StepKeepsKey(db, run, run.pc !in fails);
    StepKeepsNow(db, run, run.pc !in fails);
    var (db1, run1) := Step(db, run, run.pc !in fails);
    db', run' := Advance(db0, db1, run1, fails, target);
  }

  // ----- the fence after an attempt -----

  /** Past the snapshot flush nothing moves the fence or the route any more. */
  ghost predicate Settled(db: Db, run: Run, fence: nat, snapshot: Option<Snapshot>) {
    && StepsLeft(run.pc) < StepsLeft(WritingSnapshot) && run.unsaved == None
    && db.control.fenceGeneration == fence && db.snapshot == snapshot
    && (run.control.Some? ==> run.control.value.row.fenceGeneration == fence)
  }

  lemma TransitionKeepsSettled(db: Db, run: Run, ok: bool, fence: nat, snapshot: Option<Snapshot>)
    requires Settled(db, run, fence, snapshot) && (run.pc.Enter? || run.pc.Journal?)
    requires StepsLeft(Step(db, run, ok).1.pc) < StepsLeft(run.pc)
    ensures var (db', run') := Step(db, run, ok); Settled(db', run', fence, snapshot)
  {
  }

  lemma StepKeepsSettled(db: Db, run: Run, ok: bool, fence: nat, snapshot: Option<Snapshot>)
    requires Settled(db, run, fence, snapshot) && run.pc != Done
    ensures var (db', run') := Step(db, run, ok); Settled(db', run', fence, snapshot)
  {
    StepDescends(db, run, ok);
    if run.pc.Enter? || run.pc.Journal? { TransitionKeepsSettled(db, run, ok, fence, snapshot); }
  }

  lemma {:induction false} SettledCompletes(db: Db, run: Run, fails: set<Pc>, fence: nat, snapshot: Option<Snapshot>)
    requires Settled(db, run, fence, snapshot)
    ensures var end := Complete(db, run, fails).0; end.control.fenceGeneration == fence && end.snapshot == snapshot
    decreases StepsLeft(run.pc)
  {
    if run.pc != Done {
      StepKeepsSettled(db, run, run.pc !in fails, fence, snapshot);
      StepDescends(db, run, run.pc !in fails);
      var (db', run') := Step(db, run, run.pc !in fails);
      SettledCompletes(db', run', fails, fence, snapshot);
    }
  }

  /** An attempt that gets as far as comparing generations, and whose rollback, if any, is saved. */
  ghost predicate ReachesFence(db: Db, key: string, fails: set<Pc>) {
    && Creating !in fails && Eligible(db, key)
    && (forall pc :: IsForward(pc) && StepsLeft(pc) > StepsLeft(ReadingSnapshot)
          ==> !Throws(pc, fails, OperationOf(db, key).opType))
    && RecordingFailure !in fails && Enter(OperationState.Rollback) !in fails
  }

  /** The generations agree, the snapshot is read, and there is a row to change or the new one gets written. */
  ghost predicate SwitchesRoute(db: Db, fails: set<Pc>) {
    FenceMatches(db) && ReadingSnapshot !in fails && (db.snapshot.Some? || WritingSnapshot !in fails)
  }

  lemma StartsForward(db: Db, key: string, token: string, fails: set<Pc>) returns (db': Db, run': Run)
    requires Creating !in fails && Eligible(db, key)
    ensures RunInv(db, db', run') && run'.pc == Enter(Preparing) && run'.key == key && db'.now == db.now
    ensures Complete(db', run', fails) == Complete(db, Start(key, token), fails)
  {
    StepKeepsInv(db, db, Start(key, token), true);
    var (db1, run1) := Step(db, Start(key, token), true);
    return db1, run1;
  }

  /** The rollback's flush saves what the refused or failed switch left in memory: the raised fence, and the switched
      snapshot if only its own flush had failed. */
  lemma RollbackSaves(db0: Db, db: Db, run: Run, fails: set<Pc>)
    requires RunInv(db0, db, run) && run.pc == RecordingFailure && db.snapshot == db0.snapshot
    requires RecordingFailure !in fails && Enter(OperationState.Rollback) !in fails
    requires run.control.Some? && run.control.value.row.fenceGeneration == EffectiveFence(db0.control) + 1
    requires run.operation.state == Switching
    ensures var end := Complete(db, run, fails).0;
      && end.control.fenceGeneration == EffectiveFence(db0.control) + 1
      && end.snapshot == if run.unsaved.Some? then run.unsaved else db0.snapshot
  {
    var fence, saved := EffectiveFence(db0.control) + 1, if run.unsaved.Some? then run.unsaved else db0.snapshot;
    var (db1, run1) := Step(db, run, true);
    assert Complete(db, run, fails) == Complete(db1, run1, fails);
    RollbackFlushSettles(db0, db, run);
    var (db2, run2) := StepEnter(db1, run1, OperationState.Rollback, true);
    assert Complete(db1, run1, fails) == Complete(db2, run2, fails);
    SettledCompletes(db2, run2, fails, fence, saved);
  }

  lemma RollbackFlushSettles(db0: Db, db: Db, run: Run)
    requires RunInv(db0, db, run) && run.pc == RecordingFailure && db.snapshot == db0.snapshot
    requires run.control.Some? && run.control.value.row.fenceGeneration == EffectiveFence(db0.control) + 1
    requires run.operation.state == Switching
    ensures var (db', run') := StepEnter(db, run.(pc := Enter(OperationState.Rollback)), OperationState.Rollback, true);
      Settled(db', run', EffectiveFence(db0.control) + 1, if run.unsaved.Some? then run.unsaved else db0.snapshot)
  {
  }

  /** The switch itself: even if its flush fails, a row that was read stays changed until the rollback's flush. */
  lemma WriteOutcome(db0: Db, db: Db, run: Run, ok: bool)
    requires RunInv(db0, db, run) && run.pc == WritingSnapshot
    ensures var (db', run') := Step(db, run, ok);
            var next := Some(NextSnapshot(db0.snapshot, SwitchTargets(db0.control), db.now, db0.secret));
      && RunInv(db0, db', run')
      && run'.control.Some? && run'.control.value.row.fenceGeneration == EffectiveFence(db0.control) + 1
      && run'.operation.state == Switching
      && (run'.pc == MarkingDegraded <==> ok)
      && (ok ==> db'.snapshot == next && run'.unsaved == None)
      && (ok ==> db'.control.fenceGeneration == EffectiveFence(db0.control) + 1)
      && (!ok ==> run'.pc == RecordingFailure && db'.snapshot == db0.snapshot
                  && run'.unsaved == if db0.snapshot.Some? then next else None)
  {
    WritingSnapshotKeepsInv(db0, db, run, ok);
  }

  lemma SwitchOutcome(db0: Db, db: Db, run: Run, fails: set<Pc>)
    requires RunInv(db0, db, run) && run.pc == WritingSnapshot
    requires RecordingFailure !in fails && Enter(OperationState.Rollback) !in fails
    ensures var end := Complete(db, run, fails).0;
      && end.control.fenceGeneration == EffectiveFence(db0.control) + 1
      && end.snapshot == if db0.snapshot.None? && WritingSnapshot in fails then None
                         else Some(NextSnapshot(db0.snapshot, SwitchTargets(db0.control), db.now, db0.secret))
  {
    WriteOutcome(db0, db, run, run.pc !in fails);
    var (db1, run1) := Step(db, run, run.pc !in fails);
    assert Complete(db, run, fails) == Complete(db1, run1, fails);
    if run1.pc == RecordingFailure {
      RollbackSaves(db0, db1, run1, fails);
    } else {
      SettledCompletes(db1, run1, fails, EffectiveFence(db0.control) + 1, db1.snapshot);
    }
  }

  lemma ReachReading(db0: Db, key: string, token: string, fails: set<Pc>) returns (db: Db, run: Run)
    requires ReachesFence(db0, key, fails)
    ensures RunInv(db0, db, run) && run.pc == ReadingSnapshot && db.now == db0.now
    ensures Complete(db, run, fails) == Complete(db0, Start(key, token), fails)
  {
    db, run := StartsForward(db0, key, token, fails);
    db, run := Advance(db0, db, run, fails, ReadingSnapshot);
  }

  /** Every attempt that compares generations leaves the fence one above the generation it expected, whether or not
      it switched. The route switches exactly when the generations agree and the snapshot is read: if its flush
      fails, the rollback's flush saves it. */
  lemma AttemptOutcome(db0: Db, key: string, token: string, fails: set<Pc>)
    requires ReachesFence(db0, key, fails)
    ensures var end := Complete(db0, Start(key, token), fails).0;
      && end.control.fenceGeneration == EffectiveFence(db0.control) + 1
      && end.snapshot == if SwitchesRoute(db0, fails)
                         then Some(NextSnapshot(db0.snapshot, SwitchTargets(db0.control), db0.now, db0.secret))
                         else db0.snapshot
  {
    var db2, run2 := ReachReading(db0, key, token, fails);
    ReadingSnapshotKeepsInv(db0, db2, run2, run2.pc !in fails);
    StepKeepsNow(db2, run2, run2.pc !in fails);
    var (db3, run3) := Step(db2, run2, run2.pc !in fails);
    assert Complete(db2, run2, fails) == Complete(db3, run3, fails);
    if run3.pc == RecordingFailure {
      RollbackSaves(db0, db3, run3, fails);
    } else {
      SwitchOutcome(db0, db3, run3, fails);
    }
  }

  /** One attempt in a sequence of them. */
  datatype Attempt = Attempt(key: string, token: string, fails: set<Pc>)

  function AfterAttempts(db: Db, attempts: seq<Attempt>): Db {
    if attempts == [] then db
    else
      var last := attempts[|attempts| - 1];
      Complete(AfterAttempts(db, attempts[..|attempts| - 1]), Start(last.key, last.token), last.fails).0
  }

  ghost predicate AllReachFence(db: Db, attempts: seq<Attempt>) {
    attempts == [] ||
    (&& AllReachFence(db, attempts[..|attempts| - 1])
     && var last := attempts[|attempts| - 1];
        var before := AfterAttempts(db, attempts[..|attempts| - 1]);
        ReachesFence(before, last.key, last.fails)
        && ReadingSnapshot !in last.fails && (before.snapshot.Some? || WritingSnapshot !in last.fails))
  }

  /** With no other snapshot written in between, attempts are counted out by the fence: from an expected generation
      at or below the stored one, exactly the difference is refused and every later attempt switches; from above,
      none ever does. */
  lemma {:induction false} RefusalsCountTheGap(db: Db, attempts: seq<Attempt>)
    requires AllReachFence(db, attempts)
    ensures var gap := Generation(db.snapshot) as int - EffectiveFence(db.control);
            var end := AfterAttempts(db, attempts);
      && EffectiveFence(end.control) == EffectiveFence(db.control) + |attempts|
      && Generation(end.snapshot) ==
           Generation(db.snapshot) + (if gap < 0 || |attempts| <= gap then 0 else |attempts| - gap)
  {
    if attempts != [] {
      var shorter, last := attempts[..|attempts| - 1], attempts[|attempts| - 1];
      RefusalsCountTheGap(db, shorter);
      AttemptOutcome(AfterAttempts(db, shorter), last.key, last.token, last.fails);
    }
  }

  /** A snapshot that cannot be read after the fence was raised, or a first one that cannot be inserted, leaves the
      fence ahead of the route: from then on no attempt switches until another snapshot is written. */
  lemma FailedSwitchBlocksFailover(db: Db, key: string, token: string, fails: set<Pc>, attempts: seq<Attempt>)
    requires ReachesFence(db, key, fails) && FenceMatches(db) && !SwitchesRoute(db, fails)
    requires AllReachFence(Complete(db, Start(key, token), fails).0, attempts)
    ensures var end := AfterAttempts(Complete(db, Start(key, token), fails).0, attempts);
      Generation(end.snapshot) == Generation(db.snapshot) < EffectiveFence(end.control)
  {
    AttemptOutcome(db, key, token, fails);
    RefusalsCountTheGap(Complete(db, Start(key, token), fails).0, attempts);
  }

  // ----- how a run ends -----

  /** What a forward step says about the calls and guards behind it. */
  ghost predicate CameThrough(db0: Db, run: Run, fails: set<Pc>) {
    var left := StepsLeft(run.pc);
    && Creating !in fails
    && (forall pc :: IsForward(pc) && StepsLeft(pc) > left ==> !Throws(pc, fails, OperationOf(db0, run.key).opType))
    && (left <= 24 ==> OperationOf(db0, run.key).state == Requested)
    && (left <= 22 ==> Eligible(db0, run.key))
    && (left <= 15 ==> FenceMatches(db0))
  }

  /** The end of a call that was let in and whose recovery calls hold. */
  ghost predicate Ended(db0: Db, db: Db, key: string, fails: set<Pc>) {
    && key in db.operations && !db.control.isFrozen && db.control.writeFenceToken == None
    && (if Succeeds(db0, key, fails)
        then db.control.status == Degraded && SwitchedRoute(db0, db)
             && db.operations[key].state == (if Enter(Finalized) in fails then Switched else Finalized)
        else db.operations[key].state == OperationState.Rollback
             && (Reactivating !in fails ==> db.control.status == Active))
  }

  ghost predicate EndInv(db0: Db, db: Db, run: Run, fails: set<Pc>) {
    && RunInv(db0, db, run)
    && match run.pc
       case Creating => true
       case RecordingFailure => FailingEnd(db0, db, run, fails)
       case Enter(state) =>
         if state == OperationState.Rollback then FailingEnd(db0, db, run, fails) else CameThrough(db0, run, fails)
       case Journal(state) =>
         if state == OperationState.Rollback then LetInButFailed(db0, run.key, fails)
         else CameThrough(db0, run, fails) && (state == Finalized ==> Enter(Finalized) !in fails)
       case Reporting => CameThrough(db0, run, fails) && Enter(Finalized) !in fails
       case Thawing => LetInButFailed(db0, run.key, fails)
       case Reactivating => LetInButFailed(db0, run.key, fails)
       case Releasing => if TurnedAway(db0, run.key, fails) then db == db0 else Ended(db0, db, run.key, fails)
       case Done => if TurnedAway(db0, run.key, fails) then db == db0 else Ended(db0, db, run.key, fails)
       case _ => CameThrough(db0, run, fails)
  }

  ghost predicate LetInButFailed(db0: Db, key: string, fails: set<Pc>) {
    !TurnedAway(db0, key, fails) && !Succeeds(db0, key, fails)
  }

  ghost predicate FailingEnd(db0: Db, db: Db, run: Run, fails: set<Pc>) {
    if run.operation.state == OperationState.Rollback then TurnedAway(db0, run.key, fails)
    else
      && !TurnedAway(db0, run.key, fails)
      && (run.operation.state == Finalized <==> Succeeds(db0, run.key, fails))
      && (run.operation.state == Finalized ==>
            run.key in db.operations
            && (db.operations[run.key].state == if Enter(Finalized) in fails then Switched else Finalized))
  }

  /** A forward step that fails, or is refused by the table, the status check or the fence, keeps the run from
      succeeding. */
  lemma ForwardFailureFails(db0: Db, db: Db, run: Run, fails: set<Pc>)
    requires RunInv(db0, db, run) && IsForward(run.pc)
    requires Step(db, run, run.pc !in fails).1.pc == RecordingFailure
    ensures !Succeeds(db0, run.key, fails)
  {
    if Succeeds(db0, run.key, fails) {
      assert !Throws(run.pc, fails, OperationOf(db0, run.key).opType);
      AdvanceOnce(db0, db, run, run.pc !in fails);
      assert false;
    }
  }

  /** Before FINALIZED is asked for, the memory row is closed only when the call found a rolled-back operation. */
  lemma ForwardOperation(db0: Db, db: Db, run: Run, ok: bool)
    requires RunInv(db0, db, run) && IsForward(run.pc)
    ensures var state := Step(db, run, ok).1.operation.state;
      && state != Finalized
      && (state == OperationState.Rollback <==>
           IsClosing(OperationOf(db0, run.key).state) && run.pc == Enter(Preparing))
    ensures run.pc != Enter(Preparing) ==> !IsClosing(run.operation.state)
  {
    if run.pc.Enter? { ForwardEnterOperation(db0, db, run, run.pc.state, ok); }
    else { StepKeepsOperation(db, run, ok); }
  }

  lemma StepKeepsOperation(db: Db, run: Run, ok: bool)
    requires !run.pc.Enter? && !run.pc.Creating?
    ensures Step(db, run, ok).1.operation == run.operation
  {
  }

  lemma ForwardEnterOperation(db0: Db, db: Db, run: Run, state: OperationState, ok: bool)
    requires RunInv(db0, db, run) && IsForward(run.pc) && run.pc == Enter(state)
    ensures var after := StepEnter(db, run, state, ok).1.operation.state;
      && after != Finalized
      && (after == OperationState.Rollback <==>
           IsClosing(OperationOf(db0, run.key).state) && run.pc == Enter(Preparing))
    ensures run.pc != Enter(Preparing) ==> !IsClosing(run.operation.state)
  {
  }

  lemma ForwardFailureEnds(db0: Db, db: Db, run: Run, fails: set<Pc>)
    requires EndInv(db0, db, run, fails) && IsForward(run.pc)
    requires Step(db, run, run.pc !in fails).1.pc == RecordingFailure
    ensures var (db', run') := Step(db, run, run.pc !in fails); FailingEnd(db0, db', run', fails)
  {
    StepKeepsKey(db, run, run.pc !in fails);
    ForwardFailureFails(db0, db, run, fails);
    ForwardOperation(db0, db, run, run.pc !in fails);
  }

  lemma ForwardStepKeepsEnd(db0: Db, db: Db, run: Run, fails: set<Pc>)
    requires EndInv(db0, db, run, fails) && IsForward(run.pc)
    ensures var (db', run') := Step(db, run, run.pc !in fails); EndInv(db0, db', run', fails)
  {
    StepKeepsInv(db0, db, run, run.pc !in fails);
    StepKeepsKey(db, run, run.pc !in fails);
    var (db', run') := Step(db, run, run.pc !in fails);
    if run'.pc == RecordingFailure {
      ForwardFailureEnds(db0, db, run, fails);
    } else {
      ForwardStepCameThrough(db0, db, run, fails);
    }
  }

  lemma ForwardNext(db: Db, run: Run, ok: bool)
    requires IsForward(run.pc) && Step(db, run, ok).1.pc != RecordingFailure
    ensures Step(db, run, ok).1.pc == Next(run.pc)
    ensures !ok ==> run.pc.Journal? && !IsStrict(run.operation.opType)
  {
  }

  /** The guard a forward step has passed. */
  lemma ForwardGuard(db0: Db, db: Db, run: Run, ok: bool)
    requires RunInv(db0, db, run) && Step(db, run, ok).1.pc != RecordingFailure
    ensures run.pc == Enter(Preparing) ==> OperationOf(db0, run.key).state == Requested
    ensures run.pc == LoadingControl ==> db0.control.status != Degraded || IsDrill(run.key)
    ensures run.pc == ReadingSnapshot ==> FenceMatches(db0)
  {
  }

  lemma ForwardStepCameThrough(db0: Db, db: Db, run: Run, fails: set<Pc>)
    requires EndInv(db0, db, run, fails) && IsForward(run.pc)
    requires Step(db, run, run.pc !in fails).1.pc != RecordingFailure
    ensures var run' := Step(db, run, run.pc !in fails).1; CameThrough(db0, run', fails) && run'.pc == Next(run.pc)
  {
    StepKeepsKey(db, run, run.pc !in fails);
    ForwardOrder(run.pc);
    ForwardNext(db, run, run.pc !in fails);
    ForwardGuard(db0, db, run, run.pc !in fails);
    var run' := Step(db, run, run.pc !in fails).1;
    forall pc | IsForward(pc) && StepsLeft(pc) > StepsLeft(run'.pc)
      ensures !Throws(pc, fails, OperationOf(db0, run.key).opType)
    {
      if StepsLeft(pc) == StepsLeft(run.pc) { ForwardDistinct(pc, run.pc); }
    }
  }

  lemma FinishStepKeepsEnd(db0: Db, db: Db, run: Run, fails: set<Pc>)
    requires EndInv(db0, db, run, fails) && run.pc in {Enter(Finalized), Journal(Finalized), Reporting}
    ensures var (db', run') := Step(db, run, run.pc !in fails); EndInv(db0, db', run', fails)
  {
    StepKeepsInv(db0, db, run, run.pc !in fails);
  }

  lemma RollbackEnterKeepsEnd(db0: Db, db: Db, run: Run, fails: set<Pc>)
    requires EndInv(db0, db, run, fails) && RecoveryPcs !! fails && run.pc == Enter(OperationState.Rollback)
    ensures var (db', run') := StepEnter(db, run, OperationState.Rollback, true); EndInv(db0, db', run', fails)
  {
    RollbackEnterKeepsInv(db0, db, run, true);
  }

  lemma RollbackJournalKeepsEnd(db0: Db, db: Db, run: Run, fails: set<Pc>)
    requires EndInv(db0, db, run, fails) && RecoveryPcs !! fails && run.pc == Journal(OperationState.Rollback)
    ensures var (db', run') := StepJournal(db, run, OperationState.Rollback, true); EndInv(db0, db', run', fails)
  {
    RollbackJournalKeepsInv(db0, db, run, true);
  }

  lemma ThawingKeepsEnd(db0: Db, db: Db, run: Run, fails: set<Pc>)
    requires EndInv(db0, db, run, fails) && RecoveryPcs !! fails && run.pc == Thawing
    ensures var (db', run') := Step(db, run, true); EndInv(db0, db', run', fails)
  {
    ThawingKeepsInv(db0, db, run, true);
  }

  lemma ReactivatingKeepsEnd(db0: Db, db: Db, run: Run, fails: set<Pc>)
    requires EndInv(db0, db, run, fails) && run.pc == Reactivating
    ensures var (db', run') := Step(db, run, run.pc !in fails); EndInv(db0, db', run', fails)
  {
    ReactivatingKeepsInv(db0, db, run, run.pc !in fails);
  }

  lemma RecoveryStepKeepsEnd(db0: Db, db: Db, run: Run, fails: set<Pc>)
    requires EndInv(db0, db, run, fails) && RecoveryPcs !! fails
    requires run.pc in RecoveryPcs + {Reactivating}
    ensures var (db', run') := Step(db, run, run.pc !in fails); EndInv(db0, db', run', fails)
  {
    match run.pc
    case RecordingFailure => EffectFreeKeepsInv(db0, db, run, true);
    case Enter(_) => RollbackEnterKeepsEnd(db0, db, run, fails);
    case Journal(_) => RollbackJournalKeepsEnd(db0, db, run, fails);
    case Thawing => ThawingKeepsEnd(db0, db, run, fails);
    case Reactivating => ReactivatingKeepsEnd(db0, db, run, fails);
  }

  lemma OuterStepKeepsEnd(db0: Db, db: Db, run: Run, fails: set<Pc>)
    requires EndInv(db0, db, run, fails) && run.pc in {Creating, Releasing}
    ensures var (db', run') := Step(db, run, run.pc !in fails); EndInv(db0, db', run', fails)
  {
    StepKeepsInv(db0, db, run, run.pc !in fails);
  }

  lemma StepKeepsEnd(db0: Db, db: Db, run: Run, fails: set<Pc>)
    requires EndInv(db0, db, run, fails) && RecoveryPcs !! fails && run.pc != Done
    ensures var (db', run') := Step(db, run, run.pc !in fails); EndInv(db0, db', run', fails)
  {
    if IsForward(run.pc) { ForwardStepKeepsEnd(db0, db, run, fails); }
    else if run.pc in RecoveryPcs + {Reactivating} { RecoveryStepKeepsEnd(db0, db, run, fails); }
    else if run.pc in {Creating, Releasing} { OuterStepKeepsEnd(db0, db, run, fails); }
    else { FinishStepKeepsEnd(db0, db, run, fails); }
  }

  lemma {:induction false} CompleteKeepsEnd(db0: Db, db: Db, run: Run, fails: set<Pc>)
    requires EndInv(db0, db, run, fails) && RecoveryPcs !! fails
    ensures var (end, last) := Complete(db, run, fails);
      if TurnedAway(db0, run.key, fails) then end == db0 else Ended(db0, end, run.key, fails)
    decreases StepsLeft(run.pc)
  {
    if run.pc != Done {
      StepKeepsEnd(db0, db, run, fails);
      StepDescends(db, run, run.pc !in fails);
      StepKeepsKey(db, run, run.pc !in fails);
      var (db', run') := Step(db, run, run.pc !in fails);
      CompleteKeepsEnd(db0, db', run', fails);
    }
  }

  // ----- the route of every call -----

  /** Before the generations are compared, or behind a failure there. */
  predicate ShortOfFence(pc: Pc) {
    !(StepsLeft(Reporting) <= StepsLeft(pc) <= StepsLeft(ReadingSnapshot))
  }

  lemma QuietFlush(db: Db, run: Run, ok: bool, next: Pc, failed: Pc)
    requires run.unsaved == None
    ensures var (db', run') := StepFlush(db, run, ok, next, failed);
      db'.snapshot == db.snapshot && run'.unsaved == None
  {
  }

  lemma QuietEnter(db: Db, run: Run, state: OperationState, ok: bool)
    requires run.unsaved == None
    ensures var (db', run') := StepEnter(db, run, state, ok); db'.snapshot == db.snapshot && run'.unsaved == None
  {
    var next := ApplyTransition(run.operation, state);
    if next.Some? { QuietFlush(db, run.(operation := next.value), ok, Journal(state), Caught(state)); }
  }

  lemma QuietSnapshot(db: Db, run: Run, ok: bool)
    requires run.unsaved == None && ShortOfFence(run.pc)
    ensures var (db', run') := Step(db, run, ok); db'.snapshot == db.snapshot && run'.unsaved == None
  {
    if run.pc.Enter? { QuietEnter(db, run, run.pc.state, ok); }
  }

  lemma FailureSkipsFence(db: Db, run: Run, ok: bool)
    requires ShortOfFence(run.pc) && !IsForward(run.pc) && run.pc != Done
    ensures ShortOfFence(Step(db, run, ok).1.pc)
  {
    if run.pc.Enter? || run.pc.Journal? { RollbackSkipsFence(db, run, run.pc.state, ok); }
  }

  lemma RollbackSkipsFence(db: Db, run: Run, state: OperationState, ok: bool)
    requires ShortOfFence(run.pc) && !IsForward(run.pc)
    ensures run.pc == Enter(state) ==> ShortOfFence(StepEnter(db, run, state, ok).1.pc)
    ensures run.pc == Journal(state) ==> ShortOfFence(StepJournal(db, run, state, ok).1.pc)
  {
  }

  lemma ReadingReachesFence(db0: Db, run: Run, fails: set<Pc>)
    requires run.pc == ReadingSnapshot && CameThrough(db0, run, fails) && RecoveryPcs !! fails
    ensures ReachesFence(db0, run.key, fails)
  {
  }

  /** A call that never gets to compare generations leaves the route alone. */
  lemma {:induction false} UnreachedKeepsRoute(db0: Db, db: Db, run: Run, fails: set<Pc>)
    requires EndInv(db0, db, run, fails) && RecoveryPcs !! fails && !ReachesFence(db0, run.key, fails)
    requires db.snapshot == db0.snapshot && run.unsaved == None && ShortOfFence(run.pc)
    ensures Complete(db, run, fails).0.snapshot == db0.snapshot
    decreases StepsLeft(run.pc)
  {
    if run.pc != Done {
      var ok := run.pc !in fails;
      var (db', run') := Step(db, run, ok);
      StepKeepsEnd(db0, db, run, fails);
      StepDescends(db, run, ok);
      StepKeepsKey(db, run, ok);
      QuietSnapshot(db, run, ok);
      if IsForward(run.pc) {
        if run'.pc != RecordingFailure {
          ForwardStepCameThrough(db0, db, run, fails);
          ForwardOrder(run.pc);
          if StepsLeft(run'.pc) == StepsLeft(ReadingSnapshot) {
            ForwardDistinct(run'.pc, ReadingSnapshot);
            ReadingReachesFence(db0, run', fails);
          }
        }
      } else {
        FailureSkipsFence(db, run, ok);
      }
      UnreachedKeepsRoute(db0, db', run', fails);
    }
  }

  lemma RouteOfRun(db: Db, key: string, token: string, fails: set<Pc>)
    requires RecoveryPcs !! fails
    ensures Complete(db, Start(key, token), fails).0.snapshot ==
            if ReachesFence(db, key, fails) && SwitchesRoute(db, fails)
            then Some(NextSnapshot(db.snapshot, SwitchTargets(db.control), db.now, db.secret)) else db.snapshot
  {
    if ReachesFence(db, key, fails) {
      AttemptOutcome(db, key, token, fails);
    } else {
      UnreachedKeepsRoute(db, db, Start(key, token), fails);
    }
  }

  /** Every call to its end, when the recovery calls hold: turned away it changes nothing; otherwise the tenant is
      unfrozen, and the operation is FINALIZED (or SWITCHED, if saving FINALIZED failed) with status DEGRADED exactly
      when the table, the status check, the fence and every forward call let it; in all other cases it is in
      ROLLBACK, with status ACTIVE unless saving that failed, whatever the status was before. The route is switched
      exactly when the call gets to compare generations, they agree, and the snapshot is read; so also in many calls
      that end in ROLLBACK. */
  lemma OutcomeOfRun(db: Db, key: string, token: string, fails: set<Pc>)
    requires RecoveryPcs !! fails
    ensures var end := Complete(db, Start(key, token), fails).0;
      if TurnedAway(db, key, fails) then end == db
      else
        && key in end.operations && !end.control.isFrozen && end.control.writeFenceToken == None
        && (if Succeeds(db, key, fails)
            then end.control.status == Degraded && SwitchedRoute(db, end)
                 && end.operations[key].state == (if Enter(Finalized) in fails then Switched else Finalized)
            else end.operations[key].state == OperationState.Rollback
                 && (Reactivating !in fails ==> end.control.status == Active))
    ensures Complete(db, Start(key, token), fails).0.snapshot ==
            if ReachesFence(db, key, fails) && SwitchesRoute(db, fails)
            then Some(NextSnapshot(db.snapshot, SwitchTargets(db.control), db.now, db.secret)) else db.snapshot
  {
    CompleteKeepsEnd(db, db, Start(key, token), fails);
    RouteOfRun(db, key, token, fails);
  }

  /** When only the snapshot's own flush fails, the call ends in ROLLBACK with status ACTIVE and the route switched
      all the same, generation and fence both one up: nothing is burnt. */
  lemma FailedWriteStillSwitches(db: Db, key: string, token: string)
    requires Eligible(db, key) && FenceMatches(db) && db.snapshot.Some?
    ensures var end := Complete(db, Start(key, token), {WritingSnapshot}).0;
      && key in end.operations && end.operations[key].state == OperationState.Rollback
      && end.control.status == Active && !end.control.isFrozen
      && Generation(end.snapshot) == end.control.fenceGeneration == Generation(db.snapshot) + 1
      && end.snapshot.value.targets.primaryRegion == db.control.secondaryRegion
  {
    var fails: set<Pc> := {WritingSnapshot};
    assert ReachesFence(db, key, fails) && SwitchesRoute(db, fails);
    assert !Succeeds(db, key, fails) by {
      assert IsForward(WritingSnapshot) && Throws(WritingSnapshot, fails, OperationOf(db, key).opType);
    }
    AttemptOutcome(db, key, token, fails);
    OutcomeOfRun(db, key, token, fails);
  }

  // ----- when a call throws -----

  lemma TransitionKeepsThrew(db: Db, run: Run, state: OperationState, ok: bool)
    ensures run.threw ==> StepEnter(db, run, state, ok).1.threw && StepJournal(db, run, state, ok).1.threw
  {
  }

  lemma StepKeepsThrew(db: Db, run: Run, ok: bool)
    ensures run.threw ==> Step(db, run, ok).1.threw
  {
    if run.pc.Enter? || run.pc.Journal? { TransitionKeepsThrew(db, run, run.pc.state, ok); }
  }

  /** A rollback does not swallow the error that led to it. */
  lemma {:induction false} ThrewStays(db: Db, run: Run, fails: set<Pc>)
    requires run.threw
    ensures Complete(db, run, fails).1.threw
    decreases StepsLeft(run.pc)
  {
    if run.pc != Done {
      StepKeepsThrew(db, run, run.pc !in fails);
      StepDescends(db, run, run.pc !in fails);
      var (db', run') := Step(db, run, run.pc !in fails);
      ThrewStays(db', run', fails);
    }
  }

  /** A forward step throws exactly when it leads to the rollback. */
  lemma ForwardThrows(db: Db, run: Run, ok: bool)
    requires IsForward(run.pc) && !run.threw
    ensures var run' := Step(db, run, ok).1; run'.threw <==> run'.pc == RecordingFailure
  {
    if run.pc.Enter? || run.pc.Journal? { ForwardTransitionThrows(db, run, run.pc.state, ok); }
  }

  lemma ForwardTransitionThrows(db: Db, run: Run, state: OperationState, ok: bool)
    requires IsForward(run.pc) && !run.threw
    ensures run.pc == Enter(state) ==>
              var run' := StepEnter(db, run, state, ok).1; run'.threw <==> run'.pc == RecordingFailure
    ensures run.pc == Journal(state) ==>
              var run' := StepJournal(db, run, state, ok).1; run'.threw <==> run'.pc == RecordingFailure
  {
  }

  /** Saving FINALIZED, journaling it and reporting the drill all work. */
  predicate Finishes(fails: set<Pc>, opType: OperationType) {
    Enter(Finalized) !in fails && !Throws(Journal(Finalized), fails, opType) && Reporting !in fails
  }

  lemma FinishStep(db0: Db, db: Db, run: Run, fails: set<Pc>)
    requires RunInv(db0, db, run) && run.pc in {Enter(Finalized), Journal(Finalized), Reporting} && !run.threw
    ensures var (db', run') := Step(db, run, run.pc !in fails);
      if Throws(run.pc, fails, OperationOf(db0, run.key).opType) then run'.threw
      else
        && RunInv(db0, db', run') && !run'.threw && run'.key == run.key
        && run'.pc ==
             (match run.pc case Enter(_) => Journal(Finalized) case Journal(_) => Reporting case _ => Releasing)
        && run'.key in db'.operations && db'.operations[run'.key].state == Finalized
  {
    StepKeepsInv(db0, db, run, run.pc !in fails);
  }

  lemma ReleasingEnds(db: Db, run: Run, fails: set<Pc>)
    requires run.pc == Releasing
    ensures Complete(db, run, fails) == (db, run.(pc := Done))
  {
    var (db1, run1) := Step(db, run, run.pc !in fails);
    assert run1.pc == Done && Complete(db1, run1, fails) == (db1, run1);
  }

  ghost predicate IsFinalized(db: Db, key: string) {
    key in db.operations && db.operations[key].state == Finalized
  }

  lemma {:induction false} FinishReturnsIff(db0: Db, db: Db, run: Run, fails: set<Pc>)
    requires RunInv(db0, db, run) && run.pc in {Enter(Finalized), Journal(Finalized), Reporting} && !run.threw
    requires run.pc in {Journal(Finalized), Reporting} ==> Enter(Finalized) !in fails
    requires run.pc == Reporting ==> !Throws(Journal(Finalized), fails, OperationOf(db0, run.key).opType)
    ensures var (end, last) := Complete(db, run, fails);
      && (!last.threw <==> Finishes(fails, OperationOf(db0, run.key).opType))
      && (!last.threw ==> IsFinalized(end, run.key))
    decreases StepsLeft(run.pc)
  {
    FinishStep(db0, db, run, fails);
    StepDescends(db, run, run.pc !in fails);
    var (db', run') := Step(db, run, run.pc !in fails);
    if run'.threw { ThrewStays(db', run', fails); }
    else if run'.pc == Releasing { ReleasingEnds(db', run', fails); }
    else { FinishReturnsIff(db0, db', run', fails); }
  }

  lemma PastForwardSucceeds(db0: Db, run: Run, fails: set<Pc>)
    requires CameThrough(db0, run, fails) && StepsLeft(run.pc) == 9
    ensures Succeeds(db0, run.key, fails) && run.pc == Enter(Finalized)
  {
    ForwardDistinct(run.pc, Enter(Finalized));
  }

  lemma {:induction false} ForwardReturnsIff(db0: Db, db: Db, run: Run, fails: set<Pc>)
    requires EndInv(db0, db, run, fails) && IsForward(run.pc) && !run.threw
    ensures var (end, last) := Complete(db, run, fails);
      && (!last.threw <==>
            Succeeds(db0, run.key, fails) && Finishes(fails, OperationOf(db0, run.key).opType))
      && (!last.threw ==> IsFinalized(end, run.key))
    decreases StepsLeft(run.pc)
  {
    var ok := run.pc !in fails;
    var (db', run') := Step(db, run, ok);
    ForwardThrows(db, run, ok);
    StepDescends(db, run, ok);
    StepKeepsKey(db, run, ok);
    if run'.pc == RecordingFailure {
      ForwardFailureFails(db0, db, run, fails);
      ThrewStays(db', run', fails);
    } else {
      ForwardStepKeepsEnd(db0, db, run, fails);
      ForwardStepCameThrough(db0, db, run, fails);
      ForwardOrder(run.pc);
      if IsForward(run'.pc) {
        ForwardReturnsIff(db0, db', run', fails);
      } else {
        PastForwardSucceeds(db0, run', fails);
        FinishReturnsIff(db0, db', run', fails);
      }
    }
  }

  /** The calls that return rather than throw. */
  ghost predicate Returns(db: Db, key: string, fails: set<Pc>) {
    && Creating !in fails
    && (IsFinalized(db, key)
        || (Succeeds(db, key, fails) && Finishes(fails, OperationOf(db, key).opType)))
  }

  /** Whatever fails, a call returns exactly when its operation was FINALIZED before or this call got through to its
      end; in every other case it throws, also when its rollback works. After a call that returned the operation is
      FINALIZED. */
  lemma CallReturnsIff(db: Db, key: string, token: string, fails: set<Pc>)
    ensures var (end, last) := Complete(db, Start(key, token), fails);
      && (!last.threw <==> Returns(db, key, fails))
      && (!last.threw ==> IsFinalized(end, key))
  {
    var start := Start(key, token);
    var (db1, run1) := Step(db, start, Creating !in fails);
    assert Complete(db, start, fails) == Complete(db1, run1, fails);
    if run1.pc == Releasing {
      ReleasingEnds(db1, run1, fails);
    } else {
      OuterStepKeepsEnd(db, db, start, fails);
      ForwardReturnsIff(db, db1, run1, fails);
    }
  }

  /** When nothing fails, a first call for a tenant that is not DEGRADED, or a drill for any, goes through from a
      snapshot that stands at the record's fence, or at its version while there is no fence: FINALIZED, DEGRADED,
      unfrozen, without a token, and with the two regions exchanged in a signed snapshot that no proxy request
      passes, as it names no endpoint. */
  lemma UndisturbedFailover(db: Db, key: string, token: string)
    requires key !in db.operations && (db.control.status == Degraded ==> "drill" <= key)
    requires var c := db.control;
      Generation(db.snapshot) ==
        if c.fenceGeneration > 0 then c.fenceGeneration else if c.isFrozen then c.version else c.version + 1
    ensures var (end, last) := Complete(db, Start(key, token), {});
      && !last.threw && key in end.operations && end.operations[key].state == Finalized
      && end.control.status == Degraded && !end.control.isFrozen && end.control.writeFenceToken == None
      && end.control.fenceGeneration == Generation(db.snapshot) + 1
      && end.snapshot.Some? && Verifies(end.snapshot.value, db.secret)
      && end.snapshot.value.generation == Generation(db.snapshot) + 1
      && end.snapshot.value.issuedAt == db.now && end.snapshot.value.expiresAt == db.now + 86_400_000
      && end.snapshot.value.targets == Targets(db.control.secondaryRegion, db.control.primaryRegion, true, map[])
  {
    assert Eligible(db, key) && FenceMatches(db) && Succeeds(db, key, {}) && ReachesFence(db, key, {});
    CallReturnsIff(db, key, token, {});
    OutcomeOfRun(db, key, token, {});
    AttemptOutcome(db, key, token, {});
  }

  /** So a refused failover of a DEGRADED tenant throws, although its rollback works. */
  lemma RefusedFailoverThrows(db: Db, key: string, token: string, fails: set<Pc>)
    requires db.control.status == Degraded && !("drill" <= key) && !IsFinalized(db, key)
    ensures Complete(db, Start(key, token), fails).1.threw
  {
    CallReturnsIff(db, key, token, fails);
  }

  /** A failover is strict: when the journal row of one of its transitions cannot be appended, the call throws, and
      before FINALIZED it ends in ROLLBACK. */
  lemma FailedAppendRollsBack(db: Db, key: string, token: string, fails: set<Pc>, state: OperationState)
    requires key !in db.operations && Journal(state) in fails
    requires state in {Preparing, Validating, Switching, Switched, Finalized}
    ensures Complete(db, Start(key, token), fails).1.threw
    ensures Creating !in fails && RecoveryPcs !! fails && state != Finalized ==>
              var end := Complete(db, Start(key, token), fails).0;
              key in end.operations && end.operations[key].state == OperationState.Rollback
  {
    assert OperationOf(db, key).opType == Failover;
    if state != Finalized { assert IsForward(Journal(state)) && Throws(Journal(state), fails, Failover); }
    CallReturnsIff(db, key, token, fails);
    if RecoveryPcs !! fails { OutcomeOfRun(db, key, token, fails); }
  }

  // ----- a failure that cannot be recorded -----

  lemma RecordFails(db: Db, run: Run, fails: set<Pc>)
    requires run.pc == RecordingFailure && RecordingFailure in fails
    ensures Complete(db, run, fails).0 == db
  {
    var (db1, run1) := Step(db, run, false);
    assert Complete(db, run, fails) == Complete(db1, run1, fails);
    ReleasingEnds(db1, run1, fails);
  }

  lemma FailedKeyIsOpen(db0: Db, db: Db, run: Run, fails: set<Pc>)
    requires RunInv(db0, db, run) && run.pc == RecordingFailure && FailingEnd(db0, db, run, fails)
    requires LetInButFailed(db0, run.key, fails)
    ensures run.key in db.operations && !IsClosing(db.operations[run.key].state)
  {
  }

  lemma {:induction false} ForwardUnrecorded(db0: Db, db: Db, run: Run, fails: set<Pc>)
    requires EndInv(db0, db, run, fails) && IsForward(run.pc)
    requires RecordingFailure in fails && LetInButFailed(db0, run.key, fails)
    ensures var end := Complete(db, run, fails).0;
      run.key in end.operations && !IsClosing(end.operations[run.key].state)
    decreases StepsLeft(run.pc)
  {
    var ok := run.pc !in fails;
    var (db', run') := Step(db, run, ok);
    StepDescends(db, run, ok);
    StepKeepsKey(db, run, ok);
    ForwardStepKeepsEnd(db0, db, run, fails);
    if run'.pc == RecordingFailure {
      FailedKeyIsOpen(db0, db', run', fails);
      RecordFails(db', run', fails);
    } else {
      ForwardStepCameThrough(db0, db, run, fails);
      ForwardOrder(run.pc);
      if IsForward(run'.pc) { ForwardUnrecorded(db0, db', run', fails); }
          else { PastForwardSucceeds(db0, run', fails); }
    }
  }

  /** When the failure itself cannot be recorded there is no rollback: the operation stays open in the state it had
      reached. */
  lemma UnrecordedFailureStaysOpen(db: Db, key: string, token: string, fails: set<Pc>)
    requires RecordingFailure in fails && LetInButFailed(db, key, fails)
    ensures var (end, last) := Complete(db, Start(key, token), fails);
      last.threw && key in end.operations && !IsClosing(end.operations[key].state)
  {
    CallReturnsIff(db, key, token, fails);
    var start := Start(key, token);
    var (db1, run1) := Step(db, start, true);
    assert Complete(db, start, fails) == Complete(db1, run1, fails);
    OuterStepKeepsEnd(db, db, start, fails);
    ForwardUnrecorded(db, db1, run1, fails);
  }

  /** And the tenant stays frozen, if it had come that far. */
  lemma UnrecordedFailureStaysFrozen(db: Db, key: string, token: string, fails: set<Pc>)
    requires RecordingFailure in fails && ReadingSnapshot in fails && Creating !in fails && Eligible(db, key)
    requires forall pc :: IsForward(pc) && StepsLeft(pc) > StepsLeft(ReadingSnapshot)
               ==> !Throws(pc, fails, OperationOf(db, key).opType)
    ensures var end := Complete(db, Start(key, token), fails).0;
      end.control.isFrozen && key in end.operations && end.operations[key].state == Switching
  {
    var db1, run1 := StartsForward(db, key, token, fails);
    var db2, run2 := Advance(db, db1, run1, fails, ReadingSnapshot);
    var (db3, run3) := Step(db2, run2, false);
    assert Complete(db2, run2, fails) == Complete(db3, run3, fails);
    RecordFails(db3, run3, fails);
  }
}
