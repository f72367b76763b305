/** The failover saga as the service performs it, statement by statement, over mutable rows. `fails` stands for the
    environment: an awaited call throws when its step is in it. The step machine of FailoverSaga specifies the
    result. */
module FailoverService {
  import opened Wrappers
  import opened OperationTable
  import opened RoutingPlane
  import opened FailoverSaga
  import FailoverOutcome

  lemma {:induction false} CompleteUnfolds(db: Db, run: Run, fails: set<Pc>)
    requires run.pc != Done
    ensures var (db', run') := Step(db, run, run.pc !in fails);
      Complete(db, run, fails) == Complete(db', run', fails)
  {
  }

  lemma {:induction false} ReadingUnfolds(db: Db, run: Run, fails: set<Pc>)
    requires run.pc == ReadingSnapshot
    ensures var was := Load(db, run);
            var expected := ExpectedGeneration(was.row);
            var fenced := Assign(was, was.row.(writeFenceToken := Some(run.token), fenceGeneration := expected + 1));
            var changed := run.(control := Some(fenced));
      Complete(db, run, fails) ==
      Complete(db, if ReadingSnapshot in fails || !PassesFence(db.snapshot, Some(expected)) then Throw(changed)
                   else changed.(existing := db.snapshot, pc := WritingSnapshot), fails)
  {
    CompleteUnfolds(db, run, fails);
  }

  class Service {
    const now: nat
    const secret: string

    // durable rows of the tenant
    var control: Control
    var snapshot: Option<Snapshot>
    var operations: map<string, Operation>
    var journal: seq<JournalRow>

    // unit of work of the call in progress
    var key: string
    var token: string
    var operation: Operation
    var managed: Option<Managed>
    var existing: Option<Snapshot>
    var unsaved: Option<Snapshot>
    var threw: bool

    constructor (control: Control, now: nat, secret: string)
      ensures Rows() == Db(control, None, map[], [], now, secret)
    {
      this.now, this.secret := now, secret;
      this.control, snapshot, operations, journal := control, None, map[], [];
      key, token, operation, managed, existing, unsaved, threw := "", "", NewOperation(Failover), None, None, None,
          false;
    }

    ghost function Rows(): Db
      reads this
    {
      Db(control, snapshot, operations, journal, now, secret)
    }

    ghost function At(pc: Pc): Run
      reads this
    {
      Run(pc, key, token, operation, managed, existing, unsaved, threw)
    }

    /** What the rest of the run, from this step on, will leave behind. */
    ghost function Rest(pc: Pc, fails: set<Pc>): (Db, Run)
      reads this
    {
      Complete(Rows(), At(pc), fails)
    }

    /** One flush of the unit of work; `at` is the step it belongs to. */
    method FlushRows(ghost at: Pc) returns (ok: bool)
      modifies this`operations, this`control, this`managed, this`snapshot, this`unsaved
      ensures ok ==> old(Flush(Rows(), At(at))) == Some((Rows(), At(at)))
      ensures !ok ==> old(Flush(Rows(), At(at))) == None
      ensures !ok ==> unchanged(this)
    {
      if managed.Some? && managed.value.dirty {
        if managed.value.row.version != control.version { return false; }
        control := managed.value.row.(version := control.version + 1);
        managed := Some(Managed(control, false));
      }
      operations := operations[key := operation];
      if unsaved.Some? {
        snapshot, unsaved := unsaved, None;
      }
      return true;
    }

    /** Changes the managed control row in memory; a record not yet loaded is loaded first. */
    method AssignControl(row: Control, touched: bool, ghost at: Pc)
      modifies this`managed
      ensures At(at) == old(ChangedRun(Rows(), At(at), row, touched))
    {
      var loaded := if managed.Some? then managed.value else Managed(control, false);
      managed := Some(Managed(row, loaded.dirty || row != loaded.row || touched));
    }

    method AwaitFlush(at: Pc, ghost next: Pc, ghost failed: Pc, fails: set<Pc>) returns (ok: bool)
      modifies this
      ensures ok ==>
          (Rows(), At(next)) == old(StepFlush(Rows(), At(at), at !in fails, next, failed)) && threw == old(threw)
      ensures !ok ==> (Rows(), At(failed)) == old(StepFlush(Rows(), At(at), at !in fails, next, failed)) && threw
    {
      ok := at !in fails;
      if ok { ok := FlushRows(at); }
      if !ok { threw := true; }
    }

    method CreateOperation(fails: set<Pc>) returns (ok: bool)
      modifies this
      ensures ok && operation.state != Finalized ==> Rest(Enter(Preparing), fails) == old(Rest(Creating, fails))
      ensures !ok || operation.state == Finalized ==> Rest(Releasing, fails) == old(Rest(Creating, fails))
      ensures !ok ==> threw
      ensures ok ==> threw == old(threw)
    {
      CompleteUnfolds(Rows(), At(Creating), fails);
      if Creating in fails {
        threw := true;
        return false;
      }
      if key in operations {
        operation := operations[key];
      } else {
        operation := NewOperation(Failover);
        operations := operations[key := operation];
      }
      return true;
    }

    /** The check of the table, the change in memory and the flush. */
    method EnterState(state: OperationState, fails: set<Pc>) returns (ok: bool)
      modifies this
      ensures ok ==> Rest(Journal(state), fails) == old(Rest(Enter(state), fails)) && threw == old(threw)
      ensures !ok ==> threw && Rest(Caught(state), fails) == old(Rest(Enter(state), fails))
    {
      CompleteUnfolds(Rows(), At(Enter(state)), fails);
      if IsInvalidTransition(operation.state, state) {
        threw := true;
        return false;
      }
      operation := Operation(operation.opType, state, operation.finished || IsClosing(state));
      ok := AwaitFlush(Enter(state), Journal(state), Caught(state), fails);
    }

    method AppendToJournal(state: OperationState, fails: set<Pc>) returns (ok: bool)
      modifies this
      ensures ok ==> Rest(AfterJournal(state), fails) == old(Rest(Journal(state), fails)) && threw == old(threw)
      ensures !ok ==> threw && Rest(Caught(state), fails) == old(Rest(Journal(state), fails))
    {
      CompleteUnfolds(Rows(), At(Journal(state)), fails);
      if Journal(state) !in fails {
        journal := journal + [JournalRow(key, state)];
      } else if IsStrict(operation.opType) {
        threw := true;
        return false;
      }
      return true;
    }

    method TransitionState(state: OperationState, fails: set<Pc>) returns (ok: bool)
      modifies this
      ensures ok ==> Rest(AfterJournal(state), fails) == old(Rest(Enter(state), fails)) && threw == old(threw)
      ensures !ok ==> threw && Rest(Caught(state), fails) == old(Rest(Enter(state), fails))
    {
      ok := EnterState(state, fails);
      if ok { ok := AppendToJournal(state, fails); }
    }

    /** Loads the control row and refuses a tenant already in failover unless the call is a drill. */
    method LoadControl(fails: set<Pc>) returns (ok: bool)
      modifies this
      ensures ok ==> Rest(Enter(Validating), fails) == old(Rest(LoadingControl, fails)) && threw == old(threw)
      ensures !ok ==> threw && Rest(RecordingFailure, fails) == old(Rest(LoadingControl, fails))
    {
      CompleteUnfolds(Rows(), At(LoadingControl), fails);
      if LoadingControl in fails {
        threw := true;
        return false;
      }
      if managed.None? { managed := Some(Managed(control, false)); }
      if managed.value.row.status == Degraded && !("drill" <= key) {
        threw := true;
        return false;
      }
      return true;
    }

    method FreezeTenantWrites(fails: set<Pc>) returns (ok: bool)
      modifies this
      ensures Rest(if ok then ReadingSnapshot else RecordingFailure, fails) == old(Rest(Freezing, fails))
    {
      CompleteUnfolds(Rows(), At(Freezing), fails);
      var row := if managed.Some? then managed.value.row else control;
      AssignControl(row.(isFrozen := true), false, Freezing);
      ok := AwaitFlush(Freezing, ReadingSnapshot, RecordingFailure, fails);
    }

    method MarkDegraded(fails: set<Pc>) returns (ok: bool)
      modifies this
      ensures Rest(if ok then Enter(Switched) else RecordingFailure, fails) == old(Rest(MarkingDegraded, fails))
    {
      CompleteUnfolds(Rows(), At(MarkingDegraded), fails);
      var row := if managed.Some? then managed.value.row else control;
      AssignControl(row.(status := Degraded), true, MarkingDegraded);
      ok := AwaitFlush(MarkingDegraded, Enter(Switched), RecordingFailure, fails);
    }

    /** Freezes writes, raises the fence and publishes the switched route under it, then marks the tenant DEGRADED. */
    method SwitchRoute(fails: set<Pc>) returns (ok: bool)
      modifies this
      ensures Rest(if ok then Enter(Switched) else RecordingFailure, fails) == old(Rest(Freezing, fails))
    {
      ok := FreezeTenantWrites(fails);
      if ok { ok := PublishSwitch(fails); }
      if ok { ok := MarkDegraded(fails); }
    }

    method PublishSwitch(fails: set<Pc>) returns (ok: bool)
      modifies this
      ensures ok ==> Rest(MarkingDegraded, fails) == old(Rest(ReadingSnapshot, fails))
      ensures !ok ==> Rest(RecordingFailure, fails) == old(Rest(ReadingSnapshot, fails))
    {
      ok := RaiseFence(fails);
      if ok { ok := WriteSwitchedSnapshot(fails); }
    }

    method ClaimFence() returns (expected: nat)
      modifies this`managed
      ensures var was := old(Load(Rows(), At(ReadingSnapshot)));
        && expected == ExpectedGeneration(was.row)
        && managed == Some(Assign(was, was.row.(writeFenceToken := Some(token), fenceGeneration := expected + 1)))
      ensures Rows() == old(Rows()) && At(ReadingSnapshot) == old(At(ReadingSnapshot)).(control := managed)
    {
      var loaded := if managed.Some? then managed.value else Managed(control, false);
      expected := if loaded.row.fenceGeneration != 0 then loaded.row.fenceGeneration else loaded.row.version;
      var fenced := loaded.row.(writeFenceToken := Some(token), fenceGeneration := expected + 1);
      managed := Some(Managed(fenced, loaded.dirty || fenced != loaded.row));
    }

    /** Token and fence change in memory only; then the stored generation must be the expected one. */
    method RaiseFence(fails: set<Pc>) returns (ok: bool)
      modifies this
      ensures Rest(if ok then WritingSnapshot else RecordingFailure, fails) == old(Rest(ReadingSnapshot, fails))
    {
      ReadingUnfolds(Rows(), At(ReadingSnapshot), fails);
      var expected := ClaimFence();
      ok := ReadSnapshotRow(expected, fails);
    }

    method ReadSnapshotRow(expected: nat, fails: set<Pc>) returns (ok: bool)
      modifies this`existing, this`threw
      ensures ok <==> ReadingSnapshot !in fails && PassesFence(snapshot, Some(expected))
      ensures Rows() == old(Rows())
      ensures ok ==> At(WritingSnapshot) == old(At(ReadingSnapshot)).(existing := snapshot, pc := WritingSnapshot)
      ensures !ok ==> At(RecordingFailure) == Throw(old(At(ReadingSnapshot)))
    {
      if ReadingSnapshot in fails || (if snapshot.Some? then snapshot.value.generation else 0) != expected {
        threw := true;
        return false;
      }
      existing := snapshot;
      return true;
    }

    method WriteSwitchedSnapshot(fails: set<Pc>) returns (ok: bool)
      modifies this
      ensures ok ==> Rest(MarkingDegraded, fails) == old(Rest(WritingSnapshot, fails))
      ensures !ok ==> Rest(RecordingFailure, fails) == old(Rest(WritingSnapshot, fails))
    {
      var row := if managed.Some? then managed.value.row else control;
      var next := NextSnapshot(existing, Targets(row.secondaryRegion, row.primaryRegion, true, map[]), now, secret);
      if existing.Some? { ok := ChangeSnapshot(next, fails); } else { ok := InsertSnapshot(next, fails); }
    }

    /** A row that was read is changed in memory, and stays so if its flush fails. */
    method ChangeSnapshot(next: Snapshot, fails: set<Pc>) returns (ok: bool)
      requires existing.Some?
          && next == NextSnapshot(existing, SwitchTargets(Load(Rows(), At(WritingSnapshot)).row), now, secret)
      modifies this
      ensures ok ==> Rest(MarkingDegraded, fails) == old(Rest(WritingSnapshot, fails))
      ensures !ok ==> Rest(RecordingFailure, fails) == old(Rest(WritingSnapshot, fails))
    {
      CompleteUnfolds(Rows(), At(WritingSnapshot), fails);
      unsaved := Some(next);
      ok := AwaitFlush(WritingSnapshot, MarkingDegraded, RecordingFailure, fails);
    }

    method InsertSnapshot(next: Snapshot, fails: set<Pc>) returns (ok: bool)
      requires existing.None?
          && next == NextSnapshot(existing, SwitchTargets(Load(Rows(), At(WritingSnapshot)).row), now, secret)
      modifies this
      ensures ok ==> Rest(MarkingDegraded, fails) == old(Rest(WritingSnapshot, fails))
      ensures !ok ==> Rest(RecordingFailure, fails) == old(Rest(WritingSnapshot, fails))
    {
      CompleteUnfolds(Rows(), At(WritingSnapshot), fails);
      ok := WritingSnapshot !in fails && snapshot.None?;
      if ok { ok := FlushRows(WritingSnapshot); }
      if !ok {
        threw := true;
        return false;
      }
      snapshot := Some(next);
    }

    /** An awaited call without effect on the rows modelled here. */
    method AwaitEffectFree(at: Pc, ghost next: Pc, fails: set<Pc>) returns (ok: bool)
      requires (at, next) in {(Checking, Enter(Switching)), (Recovering, Unfreezing), (Reporting, Releasing)}
      modifies this
      ensures ok ==> Rest(next, fails) == old(Rest(at, fails)) && threw == old(threw)
      ensures !ok ==> threw && Rest(RecordingFailure, fails) == old(Rest(at, fails))
    {
      CompleteUnfolds(Rows(), At(at), fails);
      ok := at !in fails;
      if !ok { threw := true; }
    }

    method UnfreezeTenantWrites(at: Pc, fails: set<Pc>) returns (ok: bool)
      requires at in {Unfreezing, Thawing}
      modifies this
      ensures ok ==> Rest(if at == Unfreezing then Enter(Finalized) else Reactivating, fails) == old(Rest(at, fails))
      ensures !ok ==> Rest(if at == Unfreezing then RecordingFailure else Releasing, fails) == old(Rest(at, fails))
    {
      CompleteUnfolds(Rows(), At(at), fails);
      var row := if managed.Some? then managed.value.row else control;
      AssignControl(row.(isFrozen := false, writeFenceToken := None), false, at);
      ok := AwaitFlush(at, if at == Unfreezing then Enter(Finalized) else Reactivating,
                       if at == Unfreezing then RecordingFailure else Releasing, fails);
    }

    method ValidateTarget(fails: set<Pc>) returns (ok: bool)
      modifies this
      ensures Rest(if ok then Enter(Switching) else RecordingFailure, fails) == old(Rest(Enter(Validating), fails))
    {
      ok := TransitionState(Validating, fails);
      if ok { ok := AwaitEffectFree(Checking, Enter(Switching), fails); }
    }

    method PrepareSwitch(fails: set<Pc>) returns (ok: bool)
      modifies this
      ensures Rest(if ok then Freezing else RecordingFailure, fails) == old(Rest(Enter(Preparing), fails))
    {
      ok := TransitionState(Preparing, fails);
      if !ok { return false; }
      ok := LoadControl(fails);
      if !ok { return false; }
      ok := ValidateTarget(fails);
      if !ok { return false; }
      ok := TransitionState(Switching, fails);
    }

    method FinishSwitch(fails: set<Pc>) returns (ok: bool)
      modifies this
      ensures Rest(if ok then Enter(Finalized) else RecordingFailure, fails) == old(Rest(Enter(Switched), fails))
    {
      ok := TransitionState(Switched, fails);
      if !ok { return false; }
      ok := AwaitEffectFree(Recovering, Unfreezing, fails);
      if !ok { return false; }
      ok := UnfreezeTenantWrites(Unfreezing, fails);
    }

    method FinishOperation(fails: set<Pc>) returns (ok: bool)
      modifies this
      ensures Rest(if ok then Releasing else RecordingFailure, fails) == old(Rest(Enter(Finalized), fails))
    {
      ok := TransitionState(Finalized, fails);
      if !ok { return false; }
      ok := AwaitEffectFree(Reporting, Releasing, fails);
    }

    method Attempt(fails: set<Pc>) returns (ok: bool)
      modifies this
      ensures Rest(if ok then Releasing else RecordingFailure, fails) == old(Rest(Enter(Preparing), fails))
    {
      ok := PrepareSwitch(fails);
      if ok { ok := SwitchRoute(fails); }
      if ok { ok := FinishSwitch(fails); }
      if ok { ok := FinishOperation(fails); }
    }

    method Reactivate(fails: set<Pc>)
      modifies this
      ensures Rest(Releasing, fails) == old(Rest(Reactivating, fails))
    {
      CompleteUnfolds(Rows(), At(Reactivating), fails);
      var row := if managed.Some? then managed.value.row else control;
      AssignControl(row.(status := Active), false, Reactivating);
      var ok := AwaitFlush(Reactivating, Releasing, Releasing, fails);
    }

    /** The rollback keeps its own failures to itself. */
    method ExecuteFailoverRollback(fails: set<Pc>)
      modifies this
      ensures Rest(Releasing, fails) == old(Rest(Enter(OperationState.Rollback), fails))
    {
      var ok := TransitionState(OperationState.Rollback, fails);
      if ok { ReopenTenant(fails); }
    }

    method ReopenTenant(fails: set<Pc>)
      modifies this
      ensures Rest(Releasing, fails) == old(Rest(Thawing, fails))
    {
      var ok := UnfreezeTenantWrites(Thawing, fails);
      if ok { Reactivate(fails); }
    }

    method CatchFailure(fails: set<Pc>)
      modifies this
      ensures Rest(Releasing, fails) == old(Rest(RecordingFailure, fails))
    {
      CompleteUnfolds(Rows(), At(RecordingFailure), fails);
      if RecordingFailure in fails {
        threw := true;
        return;
      }
      ExecuteFailoverRollback(fails);
    }

    method Call(fails: set<Pc>)
      modifies this
      ensures (Rows(), At(Done)) == old(Rest(Creating, fails))
    {
      var ok := CreateOperation(fails);
      if ok && operation.state != Finalized {
        ok := Attempt(fails);
        if !ok { CatchFailure(fails); }
      }
      CompleteUnfolds(Rows(), At(Releasing), fails);
    }

    /** The whole call leaves the rows exactly as the step machine says, and returns exactly when its operation was
        FINALIZED before or the call got through to its end. */
    method TriggerRegionalFailover(idempotencyKey: string, writeFenceToken: string, fails: set<Pc>)
      modifies this
      ensures Rows() == old(Complete(Rows(), Start(idempotencyKey, writeFenceToken), fails)).0
      ensures threw == old(Complete(Rows(), Start(idempotencyKey, writeFenceToken), fails)).1.threw
      ensures !threw <==> old(FailoverOutcome.Returns(Rows(), idempotencyKey, fails))
      ensures !threw ==> FailoverOutcome.IsFinalized(Rows(), idempotencyKey)
    {
      FailoverOutcome.CallReturnsIff(Rows(), idempotencyKey, writeFenceToken, fails);
      BeginCall(idempotencyKey, writeFenceToken);
      Call(fails);
    }

    /** A call has a unit of work of its own. */
    method BeginCall(idempotencyKey: string, writeFenceToken: string)
      modifies this
      ensures Rows() == old(Rows()) && At(Creating) == Start(idempotencyKey, writeFenceToken)
    {
      key, token, operation, managed, existing, unsaved, threw :=
        idempotencyKey, writeFenceToken, NewOperation(Failover), None, None, None, false;
    }
  }
}
