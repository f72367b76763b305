/** Crashed failover calls and calls repeated with the same idempotency key. */
module FailoverRetries {
  import opened Wrappers
  import opened OperationTable
  import opened RoutingPlane
  import opened FailoverSaga
  import opened FailoverRuns
  import opened FailoverOutcome

  // ----- a closed key -----

  ghost predicate ClosedInv(db0: Db, db: Db, run: Run) {
    && db == db0
    && (run.pc in {Creating, Releasing, Done}
        || (run.pc in {Enter(Preparing), RecordingFailure, Enter(OperationState.Rollback)}
            && run.operation.state == OperationState.Rollback))
  }

  /** A call whose key is FINALIZED or in ROLLBACK changes nothing, at no step and whatever fails. */
  lemma {:induction false} ClosedKeyChangesNothing(db: Db, run: Run, fails: set<Pc>, n: nat)
    requires run.key in db.operations && IsClosing(db.operations[run.key].state)
    requires ClosedInv(db, db, run)
    ensures Exec(db, run, fails, n).0 == db
    decreases n
  {
    if n > 0 && run.pc != Done {
      var (db', run') := Step(db, run, run.pc !in fails);
      assert ClosedInv(db, db', run') && run'.key == run.key;
      ClosedKeyChangesNothing(db', run', fails, n - 1);
    }
  }

  /** One call with a given key: what fails, and after how many steps it is cut off. */
  datatype Call = Call(token: string, fails: set<Pc>, steps: nat)

  function Calls(db: Db, key: string, calls: seq<Call>): Db {
    if calls == [] then db
    else
      var last := calls[|calls| - 1];
      Exec(Calls(db, key, calls[..|calls| - 1]), Start(key, last.token), last.fails, last.steps).0
  }

  lemma {:induction false} ClosedKeyStaysClosed(db: Db, key: string, calls: seq<Call>)
    requires key in db.operations && IsClosing(db.operations[key].state)
    ensures Calls(db, key, calls) == db
  {
    if calls != [] {
      ClosedKeyStaysClosed(db, key, calls[..|calls| - 1]);
      var last := calls[|calls| - 1];
      ClosedKeyChangesNothing(db, Start(key, last.token), last.fails, last.steps);
    }
  }

  // ----- crash and retry -----

  predicate NotFinalized(db: Db, key: string) {
    key in db.operations ==> db.operations[key].state != Finalized
  }

  /** FINALIZED is only ever saved for an unfrozen tenant. */
  ghost predicate FinalizedUnfrozen(db: Db, run: Run) {
    run.key in db.operations && db.operations[run.key].state == Finalized ==>
      && !db.control.isFrozen
      && (run.pc in {Releasing, Done}
          || (run.pc in {Journal(Finalized), Reporting, RecordingFailure, Enter(OperationState.Rollback)}
              && run.operation.state == Finalized))
  }

  lemma StepKeepsFinalizedUnfrozen(db0: Db, db: Db, run: Run, ok: bool)
    requires RunInv(db0, db, run) && FinalizedUnfrozen(db, run) && NotFinalized(db0, run.key)
    ensures var (db', run') := Step(db, run, ok); FinalizedUnfrozen(db', run')
  {
    if run.pc.Enter? { EnterKeepsFinalizedUnfrozen(db0, db, run, run.pc.state, ok); }
    else if run.pc.Journal? { JournalKeepsFinalizedUnfrozen(db0, db, run, run.pc.state, ok); }
    else if StepsLeft(run.pc) in {2, 3, 10, 14, 15, 16, 17} { ControlStepKeepsFinalizedUnfrozen(db0, db, run, ok); }
  }

  lemma ControlStepKeepsFinalizedUnfrozen(db0: Db, db: Db, run: Run, ok: bool)
    requires RunInv(db0, db, run) && FinalizedUnfrozen(db, run)
    requires run.pc in {Freezing, ReadingSnapshot, WritingSnapshot, MarkingDegraded, Unfreezing, Thawing, Reactivating}
    ensures var (db', run') := Step(db, run, ok); FinalizedUnfrozen(db', run')
  {
    assert db.operations[run.key].state != Finalized;
  }

  lemma EnterKeepsFinalizedUnfrozen(db0: Db, db: Db, run: Run, state: OperationState, ok: bool)
    requires RunInv(db0, db, run) && FinalizedUnfrozen(db, run) && run.pc == Enter(state)
    ensures var (db', run') := StepEnter(db, run, state, ok); FinalizedUnfrozen(db', run')
  {
  }

  lemma JournalKeepsFinalizedUnfrozen(db0: Db, db: Db, run: Run, state: OperationState, ok: bool)
    requires RunInv(db0, db, run) && FinalizedUnfrozen(db, run) && run.pc == Journal(state)
    ensures var (db', run') := StepJournal(db, run, state, ok); FinalizedUnfrozen(db', run')
  {
  }

  lemma {:induction false} ExecKeepsFinalizedUnfrozen(db0: Db, db: Db, run: Run, fails: set<Pc>, n: nat)
    requires RunInv(db0, db, run) && FinalizedUnfrozen(db, run) && NotFinalized(db0, run.key)
    ensures var (end, last) := Exec(db, run, fails, n);
      run.key in end.operations && end.operations[run.key].state == Finalized ==> !end.control.isFrozen
    decreases n
  {
    if n > 0 && run.pc != Done {
      StepKeepsInv(db0, db, run, run.pc !in fails);
      StepKeepsFinalizedUnfrozen(db0, db, run, run.pc !in fails);
      StepKeepsKey(db, run, run.pc !in fails);
      var (db', run') := Step(db, run, run.pc !in fails);
      ExecKeepsFinalizedUnfrozen(db0, db', run', fails, n - 1);
    }
  }

  /** Cut-off calls, however many, never leave a FINALIZED key with a frozen tenant. */
  lemma {:induction false} CallsKeepFinalizedUnfrozen(db: Db, key: string, calls: seq<Call>)
    requires key !in db.operations
    ensures var mid := Calls(db, key, calls);
      key in mid.operations && mid.operations[key].state == Finalized ==> !mid.control.isFrozen
  {
    if calls != [] {
      var last, before := calls[|calls| - 1], Calls(db, key, calls[..|calls| - 1]);
      CallsKeepFinalizedUnfrozen(db, key, calls[..|calls| - 1]);
      if NotFinalized(before, key) {
        ExecKeepsFinalizedUnfrozen(before, before, Start(key, last.token), last.fails, last.steps);
      } else {
        ClosedKeyChangesNothing(before, Start(key, last.token), last.fails, last.steps);
      }
    }
  }

  /** Any number of calls with one fresh key, each failing anyhow and cut off anywhere, then one more to its end: the
      operation is FINALIZED or in ROLLBACK, or SWITCHED when saving FINALIZED failed; and the tenant is left frozen
      exactly when the last cut-off left it between saving ROLLBACK and unfreezing. */
  lemma CrashThenRetry(db: Db, key: string, calls: seq<Call>, token: string, fails: set<Pc>)
    requires key !in db.operations
    requires RecoveryPcs !! fails && Creating !in fails
    ensures var mid := Calls(db, key, calls);
            var end := Complete(mid, Start(key, token), fails).0;
      && key in end.operations
      && (end.operations[key].state in {Finalized, OperationState.Rollback}
          || (end.operations[key].state == Switched && Enter(Finalized) in fails))
      && (end.control.isFrozen <==>
            mid.control.isFrozen && key in mid.operations && mid.operations[key].state == OperationState.Rollback)
  {
    CallsKeepFinalizedUnfrozen(db, key, calls);
    OutcomeOfRun(Calls(db, key, calls), key, token, fails);
  }

  // ----- a tenant left frozen -----

  /** A failed snapshot read brings a frozen tenant to the rollback's transition with the fence changed in memory. */
  lemma FrozenAtRollback(db0: Db, db: Db, run: Run, fails: set<Pc>) returns (db': Db, run': Run)
    requires RunInv(db0, db, run) && run.pc == ReadingSnapshot
    requires ReadingSnapshot in fails && RecordingFailure !in fails
    ensures Complete(db', run', fails) == Complete(db, run, fails)
    ensures run'.pc == Enter(OperationState.Rollback) && run'.key == run.key && Holds(db', run', Switching)
    ensures run'.control.Some? && run'.control.value.row.isFrozen && Synced(db', run')
  {
    var (db1, run1) := Step(db, run, false);
    assert Complete(db, run, fails) == Complete(db1, run1, fails);
    db', run' := Step(db1, run1, true).0, Step(db1, run1, true).1;
    assert Complete(db1, run1, fails) == Complete(db', run', fails);
  }

  lemma FrozenByFailedThaw(db: Db, run: Run, fails: set<Pc>)
    requires run.pc == Enter(OperationState.Rollback) && Holds(db, run, Switching)
    requires Enter(OperationState.Rollback) !in fails && Journal(OperationState.Rollback) !in fails && Thawing in fails
    requires run.control.Some? && run.control.value.row.isFrozen && Synced(db, run)
    ensures var end := Complete(db, run, fails).0;
      end.control.isFrozen && run.key in end.operations && end.operations[run.key].state == OperationState.Rollback
  {
    var (db1, run1) := StepEnter(db, run, OperationState.Rollback, true);
    assert run1.pc == Journal(OperationState.Rollback) && db1.control.isFrozen;
    assert run.key in db1.operations && db1.operations[run.key].state == OperationState.Rollback;
    assert Complete(db, run, fails) == Complete(db1, run1, fails);
    var (db2, run2) := StepJournal(db1, run1, OperationState.Rollback, true);
    assert Complete(db1, run1, fails) == Complete(db2, run2, fails);
    FailedThawChangesNothing(db2, run2, fails);
  }

  lemma FailedThawChangesNothing(db: Db, run: Run, fails: set<Pc>)
    requires run.pc == Thawing && Thawing in fails
    ensures Complete(db, run, fails).0 == db
  {
    var (db1, run1) := Step(db, run, false);
    assert run1.pc == Releasing && Complete(db, run, fails) == Complete(db1, run1, fails);
    var (db2, run2) := Step(db1, run1, true);
    assert Complete(db1, run1, fails) == Complete(db2, run2, fails) == (db2, run2);
  }

  /** A call that stands to switch, whose snapshot read fails and whose rollback saves its state but not the
      unfreeze. */
  ghost predicate FailsToThaw(db: Db, key: string, fails: set<Pc>) {
    && ReachesFence(db, key, fails) && ReadingSnapshot in fails
    && Journal(OperationState.Rollback) !in fails && Thawing in fails
  }

  lemma FailedThawLeavesFrozen(db: Db, key: string, token: string, fails: set<Pc>)
    requires FailsToThaw(db, key, fails)
    ensures var stuck := Complete(db, Start(key, token), fails).0;
      stuck.control.isFrozen && key in stuck.operations && stuck.operations[key].state == OperationState.Rollback
  {
    var db1, run1 := StartsForward(db, key, token, fails);
    var db2, run2 := Advance(db, db1, run1, fails, ReadingSnapshot);
    var db3, run3 := FrozenAtRollback(db, db2, run2, fails);
    FrozenByFailedThaw(db3, run3, fails);
  }

  /** Such a call leaves the tenant frozen, no number of calls with its key changes anything any more,
      and a later call with a new key whose recovery calls hold unfreezes the tenant. */
  lemma FailedThawNeedsNewKey(db: Db, key: string, token: string, faults: set<Pc>, calls: seq<Call>,
                              newKey: string, fails: set<Pc>)
    requires FailsToThaw(db, key, faults) && RecoveryPcs !! fails && Creating !in fails
    ensures var stuck := Complete(db, Start(key, token), faults).0;
      && stuck.control.isFrozen && Calls(stuck, key, calls) == stuck
      && (newKey !in stuck.operations ==> !Complete(stuck, Start(newKey, token), fails).0.control.isFrozen)
  {
    FailedThawLeavesFrozen(db, key, token, faults);
    var stuck := Complete(db, Start(key, token), faults).0;
    ClosedKeyStaysClosed(stuck, key, calls);
    OutcomeOfRun(stuck, newKey, token, fails);
  }

  // ----- a rollback after the switch -----

  lemma RecoveringFails(db: Db, key: string, fails: set<Pc>)
    requires fails == {Recovering}
    ensures !Succeeds(db, key, fails) && RecoveryPcs !! fails
  {
    assert IsForward(Recovering) && Throws(Recovering, fails, OperationOf(db, key).opType);
  }

  /** When the event plane cannot be recovered after a switch, the rollback sets status ACTIVE but leaves the published
      route on the secondary region, without any service endpoint, so no proxy request is routed. */
  lemma RollbackKeepsSwitchedRoute(db: Db, key: string, token: string, request: ProxyRequest, later: nat)
    requires Eligible(db, key) && FenceMatches(db)
    ensures var end := Complete(db, Start(key, token), {Recovering}).0;
      && end.control.status == Active && end.snapshot.Some?
      && end.snapshot.value.targets.primaryRegion == db.control.secondaryRegion
      && end.snapshot.value.targets.failoverActive
      && Enforce(end.snapshot, request, later, db.secret).Refused?
  {
    var fails: set<Pc> := {Recovering};
    assert ReachesFence(db, key, fails) && SwitchesRoute(db, fails);
    AttemptOutcome(db, key, token, fails);
    RecoveringFails(db, key, fails);
    OutcomeOfRun(db, key, token, fails);
    var end := Complete(db, Start(key, token), fails).0;
    assert end.snapshot.value.targets == SwitchTargets(db.control);
    assert request.service !in end.snapshot.value.targets.serviceEndpoints;
  }

  /** A second failover of a DEGRADED tenant under a key that is no drill is refused before anything is checked,
      and its rollback makes the tenant ACTIVE while the route stays where it was. */
  lemma RefusedFailoverReactivates(db: Db, key: string, token: string)
    requires db.control.status == Degraded && !IsDrill(key) && key !in db.operations
    ensures var end := Complete(db, Start(key, token), {}).0;
      && end.control.status == Active && end.snapshot == db.snapshot
      && key in end.operations && end.operations[key].state == OperationState.Rollback
  {
    OutcomeOfRun(db, key, token, {});
    RefusedStaysUnswitched(db, db, Start(key, token), {});
  }

  /** The steps a call that is refused for DEGRADED can stand before. */
  predicate BeforeRefusal(pc: Pc) {
    match pc
    case Enter(state) => state == Preparing || state == OperationState.Rollback
    case Journal(state) => state == Preparing || state == OperationState.Rollback
    case _ => pc in {Creating, LoadingControl, RecordingFailure, Thawing, Reactivating, Releasing, Done}
  }

  lemma RefusedStep(db: Db, run: Run, ok: bool)
    requires BeforeRefusal(run.pc) && run.unsaved == None
    requires (run.pc == LoadingControl ==> Load(db, run).row.status == Degraded && !IsDrill(run.key))
    ensures var (db', run') := Step(db, run, ok);
      BeforeRefusal(run'.pc) && db'.snapshot == db.snapshot && run'.unsaved == None
  {
  }

  /** A tenant found DEGRADED is never switched by a call that is no drill. */
  lemma {:induction false} RefusedStaysUnswitched(db0: Db, db: Db, run: Run, fails: set<Pc>)
    requires RunInv(db0, db, run) && db.snapshot == db0.snapshot && run.unsaved == None
    requires db0.control.status == Degraded && !IsDrill(run.key) && BeforeRefusal(run.pc)
    ensures Complete(db, run, fails).0.snapshot == db0.snapshot
    decreases StepsLeft(run.pc)
  {
    if run.pc != Done {
      StepKeepsInv(db0, db, run, run.pc !in fails);
      StepDescends(db, run, run.pc !in fails);
      StepKeepsKey(db, run, run.pc !in fails);
      RefusedStep(db, run, run.pc !in fails);
      var (db', run') := Step(db, run, run.pc !in fails);
      RefusedStaysUnswitched(db0, db', run', fails);
    }
  }
}
