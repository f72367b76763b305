/** The operation row as the services change it (libs/kernel/tenant/src/lib/tenant-operation.service.ts,
    transitionState), and the sagas that request transitions of it (libs/kernel/tenant/src/lib/migration-
    orchestrator.service.ts; libs/domain/admin/application/src/use-cases/provisioning.service.ts). */
module OperationService {
  import opened OperationTable
  import opened OperationHistory

  class TenantOperationService {
    var memory: Operation
    var saved: Operation
    var history: seq<OperationState>
    var journaled: seq<OperationState>

    constructor CreateOperation(opType: OperationType)
      ensures State() == Fresh(opType)
    {
      memory, saved := NewOperation(opType), NewOperation(opType);
      history, journaled := [Requested], [];
    }

    function State(): Log
      reads this
    {
      Log(memory, saved, history, journaled)
    }

    method TransitionState(next: OperationState, trouble: Trouble) returns (ok: bool)
      modifies this
      ensures (State(), ok) == Transition(old(State()), next, trouble)
    {
      if trouble == BeforeRequest || IsInvalidTransition(memory.state, next) { return false; }
      memory := memory.(state := next);
      if next == Finalized || next == OperationState.Rollback {
        memory := memory.(finished := true);
      }
      if trouble == AtFlush { return false; }
      saved, history := memory, history + [next];
      if trouble == AtJournal { return !IsStrict(memory.opType); }
      journaled := journaled + [next];
      return true;
    }

    /** The requests of a saga, one awaited after the other. */
    method RunScript(script: seq<OperationState>, troubles: seq<Trouble>) returns (done: nat)
      requires |troubles| == |script|
      modifies this
      ensures (State(), done) == Drive(old(State()), script, troubles)
    {
      done := 0;
      while done < |script|
        invariant done <= |script|
        invariant var (last, more) := Drive(State(), script[done..], troubles[done..]);
                  Drive(old(State()), script, troubles) == (last, done + more)
      {
        assert script[done..][1..] == script[done + 1..] && troubles[done..][1..] == troubles[done + 1..];
        var ok := TransitionState(script[done], troubles[done]);
        if !ok { return; }
        done := done + 1;
      }
    }

    method RunUntil(script: seq<OperationState>, call: Call) returns (done: nat)
      requires |call.troubles| == |script|
      modifies this
      ensures (State(), done) == DriveUntil(old(State()), script, call)
    {
      var cut := if call.crash < |script| then call.crash else |script|;
      done := RunScript(script[..cut], call.troubles[..cut]);
    }

    method RollBackMigration(call: Call) returns (effects: seq<Effect>)
      modifies this
      ensures (State(), effects) == MigrationRollback(old(State()), call)
    {
      var ok := TransitionState(OperationState.Rollback, call.atRollback);
      if !ok { return []; }
      effects := ExecuteRollback(call.undo);
      if UndoReturns(call.undo) {
        var _ := TransitionState(OperationState.Rollback, NoTrouble);
      }
    }

    /** The migrator runs down, and a route with a version above one is published once more. */
    method ExecuteRollback(undo: Undo) returns (effects: seq<Effect>)
      ensures effects == UndoEffects(undo)
    {
      effects := [];
      if undo == NotDown { return; }
      effects := effects + [MigratorDown];
      if undo.Resolved? && undo.version.Some? && undo.version.value > 1 && undo.publishes {
        effects := effects + [RouteRepublished];
      }
    }

    /** One call of `migrateTenantWithOperation` inside its lock. */
    method MigrateTenant(call: Call) returns (effects: seq<Effect>, threw: bool)
      requires |call.troubles| == |MigrationScript|
      modifies this
      ensures (State(), effects) == MigrationCall(old(State()), call)
      ensures threw <==> MigrationThrows(old(State()), call)
    {
      memory := saved;
      if memory.state == Finalized { return [], false; }
      var done := RunUntil(MigrationScript, call);
      effects, threw := MigrationEffects(done), false;
      if done != |MigrationScript| && call.crash >= |MigrationScript| {
        var undone := RollBackMigration(call);
        effects, threw := effects + undone, true;
      }
    }

    /** One provisioning saga of a fresh operation. */
    method RunProvisioningSaga(call: Call) returns (effects: seq<Effect>)
      requires |call.troubles| == |ProvisioningScript| && State() == Fresh(Provision)
      modifies this
      ensures (State(), effects) == ProvisioningRun(call)
    {
      var done := RunUntil(ProvisioningScript, call);
      if done == |ProvisioningScript| { return [TenantActivated]; }
      if call.crash >= |ProvisioningScript| {
        var _ := TransitionState(OperationState.Rollback, call.atRollback);
      }
      return [];
    }
  }
}
