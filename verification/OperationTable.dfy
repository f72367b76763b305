/** The guarded state table of control-plane operations
    (libs/kernel/tenant/src/lib/tenant-operation.service.ts). */
module OperationTable {
  import opened Wrappers

  datatype OperationType = Provision | Migrate | Failover | RollbackType | Backup | SnapshotType

  datatype OperationState =
    | Requested | Preparing | Validating | DryRun | Switching
    | Switched | Monitoring | Reconciling | Finalized | Rollback

  /** The row of `tenant_operations` that the sagas read and change; `finished` says whether finishedAt is set. */
  datatype Operation = Operation(opType: OperationType, state: OperationState, finished: bool)

  function NewOperation(opType: OperationType): Operation {
    Operation(opType, Requested, false)
  }

  function AllowedNext(current: OperationState): set<OperationState> {
    match current
    case Requested => {Preparing, Rollback}
    case Preparing => {Validating, Rollback}
    case Validating => {DryRun, Rollback, Switching}
    case DryRun => {Switching, Rollback}
    case Switching => {Switched, Rollback}
    case Switched => {Monitoring, Rollback, Finalized}
    case Monitoring => {Reconciling, Rollback}
    case Reconciling => {Finalized, Rollback}
    case Finalized => {}
    case Rollback => {Finalized}
  }

  predicate IsInvalidTransition(current: OperationState, next: OperationState) {
    next !in AllowedNext(current)
  }

  /** Operation types whose journal append must not be skipped. */
  predicate IsStrict(opType: OperationType) {
    opType == Migrate || opType == Failover
  }

  predicate IsClosing(state: OperationState) {
    state == Finalized || state == Rollback
  }

  /** The change `transitionState` makes to the row in memory, before any flush; None is the ConflictException. */
  function ApplyTransition(op: Operation, next: OperationState): Option<Operation> {
    if IsInvalidTransition(op.state, next) then None
    else Some(Operation(op.opType, next, op.finished || IsClosing(next)))
  }

  /** A measure every allowed transition decreases. */
  function Rank(state: OperationState): nat {
    match state
    case Requested => 9
    case Preparing => 8
    case Validating => 7
    case DryRun => 6
    case Switching => 5
    case Switched => 4
    case Monitoring => 3
    case Reconciling => 2
    case Rollback => 1
    case Finalized => 0
  }

  ghost predicate IsPath(states: seq<OperationState>) {
    forall i :: 0 <= i < |states| - 1 ==> !IsInvalidTransition(states[i], states[i + 1])
  }

  /** Each state ranks below every earlier one. */
  ghost predicate Descending(states: seq<OperationState>) {
    forall i, j :: 0 <= i < j < |states| ==> Rank(states[j]) < Rank(states[i])
  }

  lemma {:induction false} PathDescends(path: seq<OperationState>)
    requires IsPath(path)
    ensures Descending(path)
  {
    if |path| > 1 {
      var shorter := path[..|path| - 1];
      PathDescends(shorter);
      assert !IsInvalidTransition(path[|path| - 2], path[|path| - 1]);
      forall i, j | 0 <= i < j < |path| ensures Rank(path[j]) < Rank(path[i]) {
        if j == |path| - 1 {
          if i < |path| - 2 { assert Rank(shorter[|path| - 2]) < Rank(shorter[i]); }
        } else {
          assert Rank(shorter[j]) < Rank(shorter[i]);
        }
      }
    }
  }

  /** A descending history never repeats a state, holds at most ten of them, and continues
      after ROLLBACK by FINALIZED alone and after FINALIZED by nothing. */
  lemma DescendingIsShortAndSimple(states: seq<OperationState>)
    requires Descending(states)
    ensures forall i, j :: 0 <= i < j < |states| ==> states[i] != states[j]
    ensures |states| <= 10
    ensures forall i :: 0 <= i < |states| - 1 && states[i] == Rollback ==>
        i == |states| - 2 && states[i + 1] == Finalized
    ensures forall i :: 0 <= i < |states| && states[i] == Finalized ==> i == |states| - 1
  {
    if |states| > 0 {
      forall i | 0 <= i < |states| ensures Rank(states[i]) <= 9 - i {
        RankAtMost(states, i);
      }
      assert Rank(states[|states| - 1]) <= 9 - (|states| - 1);
    }
    forall i | 0 <= i < |states| - 1 && states[i] == Rollback
      ensures i == |states| - 2 && states[i + 1] == Finalized
    {
      assert Rank(states[i + 1]) < Rank(states[i]) == 1;
    }
  }

  lemma {:induction false} RankAtMost(states: seq<OperationState>, i: nat)
    requires Descending(states) && i < |states|
    ensures Rank(states[i]) <= 9 - i
  {
    if i > 0 { RankAtMost(states, i - 1); }
  }

  /** An operation that starts in REQUESTED, follows the table and finishes without ROLLBACK went through
      PREPARING, VALIDATING, SWITCHING and SWITCHED, in that order. */
  lemma NormalFinishVisitsSwitch(path: seq<OperationState>)
    requires IsPath(path) && |path| > 0 && path[0] == Requested
    requires path[|path| - 1] == Finalized && Rollback !in path
    ensures |path| >= 6 && path[1] == Preparing && path[2] == Validating
    ensures (path[3] == Switching && path[4] == Switched)
         || (path[3] == DryRun && path[4] == Switching && path[5] == Switched)
  {}

  /** The four ways from REQUESTED to FINALIZED without ROLLBACK: with and without a dry run, and with and without
      monitoring. */
  const NORMAL: set<seq<OperationState>> := {
    [Requested, Preparing, Validating, Switching, Switched, Finalized],
    [Requested, Preparing, Validating, DryRun, Switching, Switched, Finalized],
    [Requested, Preparing, Validating, Switching, Switched, Monitoring, Reconciling, Finalized],
    [Requested, Preparing, Validating, DryRun, Switching, Switched, Monitoring, Reconciling, Finalized]}

  predicate EndsNormally(path: seq<OperationState>) {
    |path| > 0 && path[0] == Requested && path[|path| - 1] == Finalized && Rollback !in path
  }

  lemma NormalPathIsKnown(path: seq<OperationState>)
    requires IsPath(path) && EndsNormally(path)
    requires forall i :: 0 <= i < |path| && path[i] == Finalized ==> i == |path| - 1
    ensures path in NORMAL
  {
    assert path[1] == Preparing && path[2] == Validating;
    var switching := if path[3] == DryRun then 4 else 3;
    assert path[switching] == Switching && path[switching + 1] == Switched;
    if path[switching + 2] == Finalized {
      assert |path| == switching + 3;
      if switching == 3 {
        assert path == [Requested, Preparing, Validating, Switching, Switched, Finalized];
      } else {
        assert path == [Requested, Preparing, Validating, DryRun, Switching, Switched, Finalized];
      }
    } else {
      assert path[switching + 2] == Monitoring && path[switching + 3] == Reconciling
          && path[switching + 4] == Finalized;
      assert |path| == switching + 5;
      if switching == 3 {
        assert path == [Requested, Preparing, Validating, Switching, Switched, Monitoring, Reconciling, Finalized];
      } else {
        assert path ==
          [Requested, Preparing, Validating, DryRun, Switching, Switched, Monitoring, Reconciling, Finalized];
      }
    }
  }

  /** A path of the table ends normally exactly when it is one of them. */
  lemma NormalPathsAre(path: seq<OperationState>)
    ensures IsPath(path) && EndsNormally(path) <==> path in NORMAL
  {
    if IsPath(path) && EndsNormally(path) {
      PathDescends(path);
      DescendingIsShortAndSimple(path);
      NormalPathIsKnown(path);
    }
  }

  /** From every state before the two closing ones ROLLBACK can be asked for, and after it only FINALIZED. */
  lemma RollbackLeadsToFinalized(next: OperationState)
    ensures !IsInvalidTransition(Rollback, next) <==> next == Finalized
  {
  }

  /** Only FINALIZED is terminal, and every other open state can be rolled back. */
  lemma OnlyFinalizedIsTerminal(state: OperationState)
    ensures state != Finalized <==> exists next :: !IsInvalidTransition(state, next)
    ensures !IsClosing(state) <==> !IsInvalidTransition(state, Rollback)
  {
    if state != Finalized {
      assert !IsInvalidTransition(state, if state == Rollback then Finalized else Rollback);
    }
  }
}
