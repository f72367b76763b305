/** What a failover call leaves in the operation journal. */
module FailoverJournal {
  import opened Wrappers
  import opened OperationTable
  import opened RoutingPlane
  import opened FailoverSaga
  import opened FailoverRuns
  import opened FailoverOutcome

  /** The journal rows of the first `n` transitions of a failover, and of its rollback. */
  function RowsOf(key: string, n: nat, closed: bool): seq<JournalRow> {
    if closed then RowsOf(key, n, false) + [JournalRow(key, OperationState.Rollback)]
    else [JournalRow(key, Preparing), JournalRow(key, Validating), JournalRow(key, Switching),
          JournalRow(key, Switched),
          JournalRow(key, Finalized)][..if n < 5 then n else 5]
  }

  /** How many transitions are journaled before a step on the way to FINALIZED. */
  function Journaled(pc: Pc): nat {
    var left := StepsLeft(pc);
    if left >= 24 then 0 else if left >= 21 then 1 else if left >= 18 then 2 else if left >= 12 then 3
    else if left >= 8 then 4 else 5
  }

  /** A step of the failure path. */
  predicate IsFailing(pc: Pc) {
    4 <= StepsLeft(pc) <= 6
  }

  ghost predicate JournalAt(db0: Db, db: Db, run: Run, n: nat, closed: bool) {
    && n <= 5 && db.journal == db0.journal + RowsOf(run.key, n, closed)
    && (StepsLeft(run.pc) >= 7 ==> !closed && n == Journaled(run.pc))
    && (IsFailing(run.pc) ==> !closed && run.threw)
    && (run.pc in {Thawing, Reactivating} ==> closed && run.threw)
    && (run.pc in {Releasing, Done} && !run.threw ==> !closed && n == 5)
  }

  /** A failed append ends the step with an exception. */
  ghost predicate StrictRun(run: Run) {
    run.pc != Creating ==> IsStrict(run.operation.opType)
  }

  lemma FlushKeepsJournal(db: Db, run: Run, ok: bool, next: Pc, failed: Pc)
    ensures var (db', run') := StepFlush(db, run, ok, next, failed);
      && db'.journal == db.journal && run'.key == run.key && run'.operation == run.operation
      && (run' == ThrowTo(run, failed) || (run'.pc == next && run'.threw == run.threw))
  {
  }

  /** Only an append changes the journal. */
  lemma EnterKeepsJournal(db: Db, run: Run, state: OperationState, ok: bool)
    ensures var (db', run') := StepEnter(db, run, state, ok);
      && db'.journal == db.journal && run'.key == run.key && run'.operation.opType == run.operation.opType
      && ((run'.pc == Caught(state) && run'.threw) || (run'.pc == Journal(state) && run'.threw == run.threw))
  {
    var next := ApplyTransition(run.operation, state);
    if next.Some? {
      FlushKeepsJournal(db, run.(operation := next.value), ok, Journal(state), Caught(state));
    }
  }

  lemma JournalAppends(db0: Db, db: Db, run: Run, state: OperationState, n: nat) returns (n': nat, closed': bool)
    requires JournalAt(db0, db, run, n, false) && StrictRun(run) && run.pc == Journal(state)
    requires state in {Preparing, Validating, Switching, Switched, Finalized, OperationState.Rollback}
    ensures var (db', run') := StepJournal(db, run, state, true); JournalAt(db0, db', run', n', closed')
    ensures closed' <==> state == OperationState.Rollback
  {
    n', closed' := if state == OperationState.Rollback then n else n + 1, state == OperationState.Rollback;
    assert n' <= 5;
    assert RowsOf(run.key, n, false) + [JournalRow(run.key, state)] == RowsOf(run.key, n', closed');
    assert db0.journal + RowsOf(run.key, n, false) + [JournalRow(run.key, state)] ==
        db0.journal + (RowsOf(run.key, n, false) + [JournalRow(run.key, state)]);
  }

  lemma OtherKeepsJournal(db: Db, run: Run, ok: bool)
    requires !run.pc.Enter? && !run.pc.Journal? && run.pc != Creating
    ensures var (db', run') := Step(db, run, ok); db'.journal == db.journal && run'.operation == run.operation
  {
  }

  lemma OtherKeepsPlace(db: Db, run: Run, ok: bool)
    requires !run.pc.Enter? && !run.pc.Journal? && run.pc !in {Creating, Done}
    ensures var run' := Step(db, run, ok).1;
      if StepsLeft(run.pc) >= 7 && run'.pc != RecordingFailure
      then run'.threw == run.threw && (Journaled(run'.pc) == Journaled(run.pc) || run.pc == Reporting)
           && (run'.pc == Releasing <==> run.pc == Reporting) && (StepsLeft(run'.pc) >= 7 || run.pc == Reporting)
      else run'.threw || (!run.threw && run.pc in {RecordingFailure, Thawing, Reactivating, Releasing})
  {
  }

  lemma OtherStepJournal(db0: Db, db: Db, run: Run, ok: bool, n: nat, closed: bool)
    requires JournalAt(db0, db, run, n, closed) && StrictRun(run)
    requires !run.pc.Enter? && !run.pc.Journal? && run.pc !in {Creating, Done}
    ensures var (db', run') := Step(db, run, ok); JournalAt(db0, db', run', n, closed) && StrictRun(run')
  {
    OtherKeepsJournal(db, run, ok);
    OtherKeepsPlace(db, run, ok);
    StepKeepsKey(db, run, ok);
  }

  lemma EnterStepJournal(db0: Db, db: Db, run: Run, state: OperationState, ok: bool, n: nat)
    requires RunInv(db0, db, run) && JournalAt(db0, db, run, n, false) && StrictRun(run) && run.pc == Enter(state)
    ensures var (db', run') := StepEnter(db, run, state, ok); JournalAt(db0, db', run', n, false) && StrictRun(run')
  {
    EnterKeepsJournal(db, run, state, ok);
  }

  lemma FailedAppendJournal(db0: Db, db: Db, run: Run, state: OperationState, n: nat)
    requires RunInv(db0, db, run) && JournalAt(db0, db, run, n, false) && StrictRun(run) && run.pc == Journal(state)
    ensures var (db', run') := StepJournal(db, run, state, false);
      JournalAt(db0, db', run', n, false) && StrictRun(run')
  {
  }

  lemma StepJournals(db0: Db, db: Db, run: Run, ok: bool, n: nat, closed: bool) returns (n': nat, closed': bool)
    requires RunInv(db0, db, run) && JournalAt(db0, db, run, n, closed) && StrictRun(run) && run.pc !in {Creating, Done}
    ensures var (db', run') := Step(db, run, ok); JournalAt(db0, db', run', n', closed') && StrictRun(run')
  {
    n', closed' := n, closed;
    match run.pc
    case Enter(state) => EnterStepJournal(db0, db, run, state, ok, n);
    case Journal(state) =>
      if ok { n', closed' := JournalAppends(db0, db, run, state, n); }
          else { FailedAppendJournal(db0, db, run, state, n); }
    case _ => OtherStepJournal(db0, db, run, ok, n, closed);
  }

  lemma {:induction false} RestJournals(db0: Db, db: Db, run: Run, fails: set<Pc>, n: nat, closed: bool)
    returns (n': nat, closed': bool)
    requires RunInv(db0, db, run) && JournalAt(db0, db, run, n, closed) && StrictRun(run) && run.pc != Creating
    ensures var (end, last) := Complete(db, run, fails); JournalAt(db0, end, last, n', closed') && last.key == run.key
    decreases StepsLeft(run.pc)
  {
    n', closed' := n, closed;
    if run.pc != Done {
      var ok := run.pc !in fails;
      StepKeepsInv(db0, db, run, ok);
      StepDescends(db, run, ok);
      StepKeepsKey(db, run, ok);
      var (db1, run1) := Step(db, run, ok);
      n', closed' := StepJournals(db0, db, run, ok, n, closed);
      n', closed' := RestJournals(db0, db1, run1, fails, n', closed');
    }
  }

  /** A call appends the rows of its transitions in their order, possibly cut short, and then at most that of
      ROLLBACK: all five and no ROLLBACK when it gets through, none when it found its operation FINALIZED. */
  lemma CallJournals(db: Db, key: string, token: string, fails: set<Pc>) returns (n: nat, closed: bool)
    requires IsStrict(OperationOf(db, key).opType)
    ensures n <= 5
    ensures Complete(db, Start(key, token), fails).0.journal == db.journal + RowsOf(key, n, closed)
    ensures Returns(db, key, fails) ==> !closed && n == if IsFinalized(db, key) then 0 else 5
  {
    var start := Start(key, token);
    var (db1, run1) := Step(db, start, Creating !in fails);
    assert Complete(db, start, fails) == Complete(db1, run1, fails);
    LoadingKeepsInv(db, db, start, Creating !in fails);
    assert db1.journal == db.journal + RowsOf(key, 0, false);
    CallReturnsIff(db, key, token, fails);
    if run1.pc == Releasing {
      ReleasingEnds(db1, run1, fails);
      n, closed := 0, false;
    } else {
      n, closed := RestJournals(db, db1, run1, fails, 0, false);
    }
  }
}
