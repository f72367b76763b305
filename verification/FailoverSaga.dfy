/** One failover run as a machine of awaited steps, each of which may fail
    (libs/kernel/tenant/src/lib/failover.service.ts). A crash is a run that takes no further step. */
module FailoverSaga {
  import opened Wrappers
  import opened OperationTable
  import opened RoutingPlane

  datatype JournalRow = JournalRow(key: string, state: OperationState)

  /** The durable rows of one tenant; operations are found by idempotency key. */
  datatype Db = Db(
    control: Control, snapshot: Option<Snapshot>, operations: map<string, Operation>,
    journal: seq<JournalRow>, now: nat, secret: string)

  /** The awaited call a run stands before. Enter and Journal are the flush and the journal append of one transition. */
  datatype Pc =
    | Creating
    | Enter(state: OperationState)
    | Journal(state: OperationState)
    | LoadingControl
    | Checking
    | Freezing
    | ReadingSnapshot
    | WritingSnapshot
    | MarkingDegraded
    | Recovering
    | Unfreezing
    | Reporting
    | RecordingFailure
    | Thawing
    | Reactivating
    | Releasing
    | Done

  /** A control record managed by the run's unit of work; `dirty` says a flush would write it. */
  datatype Managed = Managed(row: Control, dirty: bool)

  /** `existing` is the snapshot row as read; `unsaved` is what the unit of work has made of it and not yet saved. */
  datatype Run = Run(
    pc: Pc, key: string, token: string, operation: Operation,
    control: Option<Managed>, existing: Option<Snapshot>, unsaved: Option<Snapshot>, threw: bool)

  function Start(key: string, token: string): Run {
    Run(Creating, key, token, NewOperation(Failover), None, None, None, false)
  }

  function Assign(managed: Managed, row: Control): Managed {
    Managed(row, managed.dirty || row != managed.row)
  }

  /** The unit of work's control record, loaded on first use. */
  function Load(db: Db, run: Run): Managed {
    if run.control.Some? then run.control.value else Managed(db.control, false)
  }

  /** One atomic flush: the operation row, a changed snapshot row, and the control row under its version check. None
      is the lock error; whatever a flush could not save stays changed in memory. */
  function Flush(db: Db, run: Run): Option<(Db, Run)> {
    var saved := db.(operations := db.operations[run.key := run.operation],
                     snapshot := if run.unsaved.Some? then run.unsaved else db.snapshot);
    var clean := run.(unsaved := None);
    if run.control.None? || !run.control.value.dirty then Some((saved, clean))
    else if run.control.value.row.version != db.control.version then None
    else
      var row := run.control.value.row.(version := db.control.version + 1);
      Some((saved.(control := row), clean.(control := Some(Managed(row, false)))))
  }

  /** The fence a failover expects; zero is falsy, so the version stands in for it. */
  function ExpectedGeneration(control: Control): nat {
    if control.fenceGeneration != 0 then control.fenceGeneration else control.version
  }

  function ThrowTo(run: Run, pc: Pc): Run {
    run.(pc := pc, threw := true)
  }

  function Throw(run: Run): Run {
    ThrowTo(run, RecordingFailure)
  }

  /** Where an exception of a transition is handled: the rollback's own transition is not caught again. */
  function Caught(state: OperationState): Pc {
    if state == OperationState.Rollback then Releasing else RecordingFailure
  }

  /** An awaited flush of the unit of work. */
  function StepFlush(db: Db, run: Run, ok: bool, next: Pc, failed: Pc): (Db, Run) {
    if !ok then (db, ThrowTo(run, failed))
    else match Flush(db, run)
      case None => (db, ThrowTo(run, failed))
      case Some(flushed) => (flushed.0, flushed.1.(pc := next))
  }

  function AfterJournal(state: OperationState): Pc {
    match state
    case Preparing => LoadingControl
    case Validating => Checking
    case Switching => Freezing
    case Switched => Recovering
    case Finalized => Reporting
    case Rollback => Thawing
    case _ => Releasing
  }

  function StepCreating(db: Db, run: Run, ok: bool): (Db, Run) {
    if !ok then (db, ThrowTo(run, Releasing))
    else if run.key in db.operations then
      var operation := db.operations[run.key];
      (db, run.(operation := operation, pc := if operation.state == Finalized then Releasing else Enter(Preparing)))
    else
      (db.(operations := db.operations[run.key := NewOperation(Failover)]),
       run.(operation := NewOperation(Failover), pc := Enter(Preparing)))
  }

  function StepEnter(db: Db, run: Run, state: OperationState, ok: bool): (Db, Run) {
    match ApplyTransition(run.operation, state)
    case None => (db, ThrowTo(run, Caught(state)))
    case Some(operation) => StepFlush(db, run.(operation := operation), ok, Journal(state), Caught(state))
  }

  function StepJournal(db: Db, run: Run, state: OperationState, ok: bool): (Db, Run) {
    if ok then (db.(journal := db.journal + [JournalRow(run.key, state)]), run.(pc := AfterJournal(state)))
    else if IsStrict(run.operation.opType) then (db, ThrowTo(run, Caught(state)))
    else (db, run.(pc := AfterJournal(state)))
  }

  predicate IsDrill(key: string) {
    "drill" <= key
  }

  function StepLoadingControl(db: Db, run: Run, ok: bool): (Db, Run) {
    if !ok then (db, Throw(run))
    else
      var loaded := run.(control := Some(Load(db, run)));
      if loaded.control.value.row.status == Degraded && !IsDrill(run.key) then (db, Throw(loaded))
      else (db, loaded.(pc := Enter(Validating)))
  }

  /** The run after a change of its managed control record; `touched` is a change of updatedAt alone. */
  function ChangedRun(db: Db, run: Run, row: Control, touched: bool): Run {
    var managed := Assign(Load(db, run), row);
    run.(control := Some(Managed(managed.row, managed.dirty || touched)))
  }

  /** A change of the managed control record and the flush that saves it. */
  function StepControl(db: Db, run: Run, row: Control, touched: bool, ok: bool, next: Pc, failed: Pc): (Db, Run) {
    StepFlush(db, ChangedRun(db, run, row, touched), ok, next, failed)
  }

  /** Fence and token change in memory; then the snapshot row is read and its generation compared. */
  function StepReadingSnapshot(db: Db, run: Run, ok: bool): (Db, Run) {
    var managed := Load(db, run);
    var expected := ExpectedGeneration(managed.row);
    var fenced := Assign(managed, managed.row.(writeFenceToken := Some(run.token), fenceGeneration := expected + 1));
    var changed := run.(control := Some(fenced));
    if !ok || !PassesFence(db.snapshot, Some(expected)) then (db, Throw(changed))
    else (db, changed.(existing := db.snapshot, pc := WritingSnapshot))
  }

  /** The routing switch: primary and secondary exchange roles and no service endpoint is carried over. */
  function SwitchTargets(control: Control): Targets {
    Targets(control.secondaryRegion, control.primaryRegion, true, map[])
  }

  /** The snapshot's flush also saves the fence and the token. A row that was read is changed in memory first. */
  function StepWritingSnapshot(db: Db, run: Run, ok: bool): (Db, Run) {
    var next := NextSnapshot(run.existing, SwitchTargets(Load(db, run).row), db.now, db.secret);
    if run.existing.None? then StepInserting(db, run, next, ok)
    else StepFlush(db, run.(unsaved := Some(next)), ok, MarkingDegraded, RecordingFailure)
  }

  /** A new row is tried once, and violates the primary key if there is one by now. */
  function StepInserting(db: Db, run: Run, next: Snapshot, ok: bool): (Db, Run) {
    if !ok || db.snapshot.Some? then (db, Throw(run))
    else match Flush(db, run)
      case None => (db, Throw(run))
      case Some(flushed) => (flushed.0.(snapshot := Some(next)), flushed.1.(pc := MarkingDegraded))
  }

  function Step(db: Db, run: Run, ok: bool): (Db, Run) {
    match run.pc
    case Creating => StepCreating(db, run, ok)
    case Enter(state) => StepEnter(db, run, state, ok)
    case Journal(state) => StepJournal(db, run, state, ok)
    case LoadingControl => StepLoadingControl(db, run, ok)
    case Checking => (db, if ok then run.(pc := Enter(Switching)) else Throw(run))
    case Freezing =>
      StepControl(db, run, Load(db, run).row.(isFrozen := true), false, ok, ReadingSnapshot, RecordingFailure)
    case ReadingSnapshot => StepReadingSnapshot(db, run, ok)
    case WritingSnapshot => StepWritingSnapshot(db, run, ok)
    case MarkingDegraded =>
      StepControl(db, run, Load(db, run).row.(status := Degraded), true, ok, Enter(Switched), RecordingFailure)
    case Recovering => (db, if ok then run.(pc := Unfreezing) else Throw(run))
    case Unfreezing =>
      StepControl(db, run, Load(db, run).row.(isFrozen := false, writeFenceToken := None), false, ok,
                  Enter(Finalized), RecordingFailure)
    case Reporting => (db, if ok then run.(pc := Releasing) else Throw(run))
    case RecordingFailure => (db, if ok then run.(pc := Enter(OperationState.Rollback)) else ThrowTo(run, Releasing))
    case Thawing =>
      StepControl(db, run, Load(db, run).row.(isFrozen := false, writeFenceToken := None), false, ok,
                  Reactivating, Releasing)
    case Reactivating =>
      StepControl(db, run, Load(db, run).row.(status := Active), false, ok, Releasing, Releasing)
    case Releasing => (db, run.(pc := Done))
    case Done => (db, run)
  }

  /** A measure every step decreases. */
  function StepsLeft(pc: Pc): nat {
    match pc
    case Creating => 26
    case Enter(state) => 1 + EntryDepth(state)
    case Journal(state) => EntryDepth(state)
    case LoadingControl => 23
    case Checking => 20
    case Freezing => 17
    case ReadingSnapshot => 16
    case WritingSnapshot => 15
    case MarkingDegraded => 14
    case Recovering => 11
    case Unfreezing => 10
    case Reporting => 7
    case RecordingFailure => 6
    case Thawing => 3
    case Reactivating => 2
    case Releasing => 1
    case Done => 0
  }

  function EntryDepth(state: OperationState): nat {
    match state
    case Preparing => 24
    case Validating => 21
    case Switching => 18
    case Switched => 12
    case Finalized => 8
    case Rollback => 4
    case _ => 7
  }

  /** At most `n` steps of a run; the calls in `fails` fail, and a small `n` is a crash. */
  function Exec(db: Db, run: Run, fails: set<Pc>, n: nat): (Db, Run)
    decreases n
  {
    if n == 0 || run.pc == Done then (db, run)
    else
      var (db', run') := Step(db, run, run.pc !in fails);
      Exec(db', run', fails, n - 1)
  }

  lemma TransitionDescends(db: Db, run: Run, state: OperationState, ok: bool)
    requires run.pc == Enter(state) || run.pc == Journal(state)
    ensures run.pc == Enter(state) ==> StepsLeft(StepEnter(db, run, state, ok).1.pc) < StepsLeft(run.pc)
    ensures run.pc == Journal(state) ==> StepsLeft(StepJournal(db, run, state, ok).1.pc) < StepsLeft(run.pc)
  {
  }

  lemma StepDescends(db: Db, run: Run, ok: bool)
    requires run.pc != Done
    ensures StepsLeft(Step(db, run, ok).1.pc) < StepsLeft(run.pc)
  {
    if run.pc.Enter? || run.pc.Journal? { TransitionDescends(db, run, run.pc.state, ok); }
  }

  /** A run to its end. */
  function Complete(db: Db, run: Run, fails: set<Pc>): (r: (Db, Run))
    ensures r.1.pc == Done
    decreases StepsLeft(run.pc)
  {
    if run.pc == Done then (db, run)
    else
      StepDescends(db, run, run.pc !in fails);
      var (db', run') := Step(db, run, run.pc !in fails);
      Complete(db', run', fails)
  }

  /** Enough steps complete the run. */
  lemma {:induction false} ExecCompletes(db: Db, run: Run, fails: set<Pc>, n: nat)
    requires n >= StepsLeft(run.pc)
    ensures Exec(db, run, fails, n) == Complete(db, run, fails)
    decreases n
  {
    if run.pc != Done {
      StepDescends(db, run, run.pc !in fails);
      var (db', run') := Step(db, run, run.pc !in fails);
      ExecCompletes(db', run', fails, n - 1);
    }
  }
}
