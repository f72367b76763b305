/** What an operation's saved states and journal rows look like over any use of `transitionState`,
    and which saga scripts the state table lets through. */
module OperationHistory {
  import opened Wrappers
  import opened OperationTable

  /** One operation as its row in memory, its row in the database, the states saved so far and those journaled so
      far. */
  datatype Log = Log(memory: Operation, saved: Operation, history: seq<OperationState>, journaled: seq<OperationState>)

  /** What goes wrong around one awaited transition. */
  datatype Trouble = NoTrouble | BeforeRequest | AtFlush | AtJournal

  datatype Action = Request(next: OperationState, trouble: Trouble) | NewUnitOfWork

  function Fresh(opType: OperationType): Log {
    Log(NewOperation(opType), NewOperation(opType), [Requested], [])
  }

  /** A later call, or one after a crash, loads the row again. */
  function Reload(log: Log): Log {
    log.(memory := log.saved)
  }

  /** `transitionState`: the memory row changes first, then the flush saves it, then the journal row is appended. */
  function Transition(log: Log, next: OperationState, trouble: Trouble): (Log, bool) {
    if trouble == BeforeRequest then (log, false)
    else match ApplyTransition(log.memory, next)
      case None => (log, false)
      case Some(op) =>
        if trouble == AtFlush then (log.(memory := op), false)
        else if trouble == AtJournal then (Log(op, op, log.history + [next], log.journaled), !IsStrict(op.opType))
        else (Log(op, op, log.history + [next], log.journaled + [next]), true)
  }

  function Act(log: Log, action: Action): Log {
    match action
    case Request(next, trouble) => Transition(log, next, trouble).0
    case NewUnitOfWork => Reload(log)
  }

  function ActAll(log: Log, actions: seq<Action>): Log {
    if actions == [] then log else Act(ActAll(log, actions[..|actions| - 1]), actions[|actions| - 1])
  }

  // ----- every history -----

  ghost predicate IsSubsequence(part: seq<OperationState>, whole: seq<OperationState>) {
    part == [] ||
    (whole != [] &&
     (IsSubsequence(part, whole[..|whole| - 1]) ||
      (part[|part| - 1] == whole[|whole| - 1] && IsSubsequence(part[..|part| - 1], whole[..|whole| - 1]))))
  }

  ghost predicate HistoryFits(log: Log) {
    && log.history != [] && log.history[0] == Requested
    && Descending(log.history)
    && log.history[|log.history| - 1] == log.saved.state
    && Rank(log.memory.state) <= Rank(log.saved.state)
    && (log.saved.finished <==> IsClosing(log.saved.state))
    && (log.memory.finished <==> IsClosing(log.memory.state))
  }

  ghost predicate WellFormed(log: Log) {
    HistoryFits(log) && IsSubsequence(log.journaled, log.history)
  }

  lemma SubsequenceGrows(part: seq<OperationState>, whole: seq<OperationState>, next: OperationState)
    requires IsSubsequence(part, whole)
    ensures IsSubsequence(part, whole + [next]) && IsSubsequence(part + [next], whole + [next])
  {
    assert (whole + [next])[..|whole|] == whole && (part + [next])[..|part|] == part;
  }

  lemma DescendingGrows(states: seq<OperationState>, next: OperationState)
    requires states != [] && Descending(states) && Rank(next) < Rank(states[|states| - 1])
    ensures Descending(states + [next])
  {
    var more := states + [next];
    forall i, j | 0 <= i < j < |more| ensures Rank(more[j]) < Rank(more[i]) {
      if j < |states| {
        assert Rank(states[j]) < Rank(states[i]);
      } else if i < |states| - 1 {
        assert Rank(states[|states| - 1]) < Rank(states[i]);
      }
    }
  }

  lemma ActKeepsHistory(log: Log, action: Action)
    requires HistoryFits(log)
    ensures HistoryFits(Act(log, action))
  {
    if action.Request? && Act(log, action).history != log.history {
      assert Rank(action.next) < Rank(log.memory.state);
      DescendingGrows(log.history, action.next);
    }
  }

  lemma ActKeepsSubsequence(log: Log, action: Action)
    requires IsSubsequence(log.journaled, log.history)
    ensures IsSubsequence(Act(log, action).journaled, Act(log, action).history)
  {
    if action.Request? {
      SubsequenceGrows(log.journaled, log.history, action.next);
    }
  }

  lemma ActKeepsWellFormed(log: Log, action: Action)
    requires WellFormed(log)
    ensures WellFormed(Act(log, action))
  {
    ActKeepsHistory(log, action);
    ActKeepsSubsequence(log, action);
  }

  lemma {:induction false} ActAllKeepsWellFormed(log: Log, actions: seq<Action>)
    requires WellFormed(log)
    ensures WellFormed(ActAll(log, actions))
  {
    if actions != [] {
      ActAllKeepsWellFormed(log, actions[..|actions| - 1]);
      ActKeepsWellFormed(ActAll(log, actions[..|actions| - 1]), actions[|actions| - 1]);
    }
  }

  /** Over any requests, faults and restarts: no state is saved twice, at most ten are saved, ROLLBACK is followed by
      FINALIZED at most, finishedAt is set exactly in those two, and the journal is a subsequence of the history. */
  lemma EveryHistory(opType: OperationType, actions: seq<Action>)
    ensures var log := ActAll(Fresh(opType), actions);
      && (forall i, j :: 0 <= i < j < |log.history| ==> log.history[i] != log.history[j])
      && 1 <= |log.history| <= 10
      && (forall i :: 0 <= i < |log.history| - 1 && log.history[i] == Rollback
            ==> i == |log.history| - 2 && log.history[i + 1] == Finalized)
      && (forall i :: 0 <= i < |log.history| && log.history[i] == Finalized ==> i == |log.history| - 1)
      && log.history[|log.history| - 1] == log.saved.state
      && (log.saved.finished <==> IsClosing(log.saved.state))
      && IsSubsequence(log.journaled, log.history)
  {
    assert IsSubsequence([], [Requested]);
    ActAllKeepsWellFormed(Fresh(opType), actions);
    DescendingIsShortAndSimple(ActAll(Fresh(opType), actions).history);
  }

  /** An accepted transition that is saved and then not journaled: a failed append, a missing secret, or a crash in
      between. */
  predicate LosesRow(log: Log, action: Action) {
    action.Request? && action.trouble == AtJournal && !IsInvalidTransition(log.memory.state, action.next)
  }

  ghost predicate LosesNothing(log: Log, actions: seq<Action>) {
    actions != [] ==>
      && LosesNothing(log, actions[..|actions| - 1])
      && !LosesRow(ActAll(log, actions[..|actions| - 1]), actions[|actions| - 1])
  }

  /** The journal holds a row for every saved transition exactly when no accepted request met trouble at the journal;
      then it is the history, in order, and otherwise it is shorter. */
  lemma {:induction false} JournalCompleteIff(opType: OperationType, actions: seq<Action>)
    ensures var log := ActAll(Fresh(opType), actions);
      && 1 <= |log.history| && |log.journaled| <= |log.history| - 1
      && (|log.journaled| == |log.history| - 1 <==> LosesNothing(Fresh(opType), actions))
      && (LosesNothing(Fresh(opType), actions) ==> log.journaled == log.history[1..])
  {
    if actions != [] {
      JournalCompleteIff(opType, actions[..|actions| - 1]);
      var before, action := ActAll(Fresh(opType), actions[..|actions| - 1]), actions[|actions| - 1];
      var after := Act(before, action);
      if action.Request? && after.history != before.history {
        assert after.history[1..] == before.history[1..] + [action.next];
      }
    }
  }

  /** One fault at the journal leaves a transition saved that no row tells of. */
  lemma FailedAppendLosesRow(opType: OperationType)
    ensures var log := ActAll(Fresh(opType), [Request(Preparing, AtJournal)]);
      log.saved.state == Preparing && log.history == [Requested, Preparing] && log.journaled == []
  {
    var request := Request(Preparing, AtJournal);
    assert [request][..0] == [] && !IsInvalidTransition(Requested, Preparing);
    assert ActAll(Fresh(opType), [request]) == Act(ActAll(Fresh(opType), []), request);
  }

  /** A request that gets saved although the table refuses it from the saved state: the row in memory is further on. */
  predicate SkipsState(log: Log, action: Action) {
    && action.Request? && action.trouble in {NoTrouble, AtJournal}
    && !IsInvalidTransition(log.memory.state, action.next) && IsInvalidTransition(log.saved.state, action.next)
  }

  ghost predicate NeverSkips(log: Log, actions: seq<Action>) {
    actions != [] ==>
      && NeverSkips(log, actions[..|actions| - 1])
      && !SkipsState(ActAll(log, actions[..|actions| - 1]), actions[|actions| - 1])
  }

  lemma PathGrowsIff(states: seq<OperationState>, next: OperationState)
    requires states != []
    ensures IsPath(states + [next]) <==> IsPath(states) && !IsInvalidTransition(states[|states| - 1], next)
  {
    var more := states + [next];
    if IsPath(more) {
      forall i | 0 <= i < |states| - 1 ensures !IsInvalidTransition(states[i], states[i + 1]) {
        assert !IsInvalidTransition(more[i], more[i + 1]);
      }
      assert !IsInvalidTransition(more[|states| - 1], more[|states| - 1 + 1]);
    }
  }

  /** The saved history is a path in the table exactly when no request skips a state. */
  lemma {:induction false} HistoryIsPathIff(opType: OperationType, actions: seq<Action>)
    ensures WellFormed(ActAll(Fresh(opType), actions))
    ensures IsPath(ActAll(Fresh(opType), actions).history) <==> NeverSkips(Fresh(opType), actions)
  {
    assert IsSubsequence([], [Requested]);
    ActAllKeepsWellFormed(Fresh(opType), actions);
    if actions != [] {
      var shorter, action := actions[..|actions| - 1], actions[|actions| - 1];
      HistoryIsPathIff(opType, shorter);
      if action.Request? { PathGrowsIff(ActAll(Fresh(opType), shorter).history, action.next); }
    }
  }

  /** The append of a migration and of a failover must not fail; for the other four types the transition goes through
      without its row. Saved it is in either case. */
  lemma FailedAppendThrowsIff(log: Log, next: OperationState)
    requires !IsInvalidTransition(log.memory.state, next)
    ensures var (after, ok) := Transition(log, next, AtJournal);
      && (ok <==> log.memory.opType in {Provision, RollbackType, Backup, SnapshotType})
      && after.saved.state == next && after.journaled == log.journaled
  {
  }

  /** After a flush that failed, the same unit of work asks for nothing but ROLLBACK, as every saga does. */
  ghost predicate Disciplined(log: Log, actions: seq<Action>) {
    actions == [] ||
    (&& Disciplined(log, actions[..|actions| - 1])
     && var before := ActAll(log, actions[..|actions| - 1]);
        var action := actions[|actions| - 1];
        action.Request? && before.memory != before.saved ==> action.next == Rollback)
  }

  /** No request of the sagas skips a state. */
  lemma {:induction false} DisciplinedHistoryIsPath(opType: OperationType, actions: seq<Action>)
    requires Disciplined(Fresh(opType), actions)
    ensures IsPath(ActAll(Fresh(opType), actions).history) && NeverSkips(Fresh(opType), actions)
  {
    HistoryIsPathIff(opType, actions);
    if actions != [] {
      DisciplinedHistoryIsPath(opType, actions[..|actions| - 1]);
      var before := ActAll(Fresh(opType), actions[..|actions| - 1]);
      HistoryIsPathIff(opType, actions[..|actions| - 1]);
      OnlyFinalizedIsTerminal(before.saved.state);
    }
  }

  /** Without that discipline a saved history can skip a state: a failed flush leaves PREPARING in memory only. */
  lemma UndisciplinedHistoryCanSkip()
    ensures exists actions :: !IsPath(ActAll(Fresh(Failover), actions).history)
  {
    var first, second := Request(Preparing, AtFlush), Request(Validating, NoTrouble);
    var actions := [first, second];
    assert actions[..1] == [first] && [first][..0] == [];
    assert ActAll(Fresh(Failover), [first]) == Act(Fresh(Failover), first);
    var log := ActAll(Fresh(Failover), actions);
    assert log == Act(Act(Fresh(Failover), first), second);
    assert log.history[0] == Requested && log.history[0 + 1] == Validating;
    assert IsInvalidTransition(Requested, Validating);
    assert !IsPath(log.history);
  }

  // ----- saga scripts -----

  /** A saga asks for the states of its script in turn and stops at the first refusal or fault;
      the number counts the requests that succeeded. */
  function Drive(log: Log, script: seq<OperationState>, troubles: seq<Trouble>): (Log, nat)
    requires |troubles| == |script|
    decreases |script|
  {
    if script == [] then (log, 0)
    else
      var (after, ok) := Transition(log, script[0], troubles[0]);
      if !ok then (after, 0)
      else
        var (last, done) := Drive(after, script[1..], troubles[1..]);
        (last, done + 1)
  }

  /** How far the table lets a script run from a state. */
  function Reach(state: OperationState, script: seq<OperationState>): (n: nat)
    ensures n <= |script|
    decreases |script|
  {
    if script == [] || IsInvalidTransition(state, script[0]) then 0 else 1 + Reach(script[0], script[1..])
  }

  predicate Harmless(trouble: Trouble, opType: OperationType) {
    trouble == NoTrouble || (trouble == AtJournal && !IsStrict(opType))
  }

  lemma {:induction false} ReachIsPath(state: OperationState, script: seq<OperationState>)
    ensures Reach(state, script) == |script| <==> IsPath([state] + script)
    decreases |script|
  {
    if script != [] {
      var whole := [state] + script;
      ReachIsPath(script[0], script[1..]);
      assert [script[0]] + script[1..] == script;
      assert forall i :: 0 <= i < |script| ==> whole[i + 1] == script[i];
      if IsPath(whole) {
        assert !IsInvalidTransition(whole[0], whole[1]);
        forall i | 0 <= i < |script| - 1 ensures !IsInvalidTransition(script[i], script[i + 1]) {
          assert !IsInvalidTransition(whole[i + 1], whole[i + 1 + 1]);
        }
      }
      if Reach(state, script) == |script| {
        forall i | 0 <= i < |whole| - 1 ensures !IsInvalidTransition(whole[i], whole[i + 1]) {
          if i > 0 { assert !IsInvalidTransition(script[i - 1], script[i - 1 + 1]); }
        }
      }
    }
  }

  /** A script advances exactly as far as the table and its first harmful fault allow, and
      what is saved is the starting state or one of the states asked for up to there. */
  lemma {:induction false} DriveAdvances(log: Log, script: seq<OperationState>, troubles: seq<Trouble>)
    requires |troubles| == |script| && log.memory == log.saved
    ensures var (last, done) := Drive(log, script, troubles);
            var reach := Reach(log.saved.state, script);
      && done <= reach
      && (forall i :: 0 <= i < done ==> Harmless(troubles[i], log.saved.opType))
      && (done < reach ==> !Harmless(troubles[done], log.saved.opType))
      && last.saved.opType == log.saved.opType == last.memory.opType
      && ((last.saved.state == if done == 0 then log.saved.state else script[done - 1])
          || (done < reach && last.saved.state == script[done]))
    decreases |script|
  {
    if script != [] {
      var (after, ok) := Transition(log, script[0], troubles[0]);
      if ok {
        DriveAdvances(after, script[1..], troubles[1..]);
        var (rest, done) := Drive(after, script[1..], troubles[1..]);
        forall i | 0 <= i < done + 1 ensures Harmless(troubles[i], log.saved.opType) {
          if i > 0 { assert Harmless(troubles[1..][i - 1], log.saved.opType); }
        }
      }
    }
  }

  /** A script that ran to its end has saved its last state. */
  lemma {:induction false} DriveSaves(log: Log, script: seq<OperationState>, troubles: seq<Trouble>)
    requires |troubles| == |script| && log.memory == log.saved
    requires Drive(log, script, troubles).1 == |script|
    ensures Drive(log, script, troubles).0.saved.state == ([log.saved.state] + script)[|script|]
    decreases |script|
  {
    if script != [] {
      var (after, ok) := Transition(log, script[0], troubles[0]);
      DriveSaves(after, script[1..], troubles[1..]);
      assert [after.saved.state] + script[1..] == script;
    }
  }

  /** An operation just loaded in some state. */
  function LoadedAt(opType: OperationType, state: OperationState): Log {
    var op := Operation(opType, state, IsClosing(state));
    Log(op, op, [state], [])
  }

  /** The script runs to its end and leaves the operation saved in its last state. */
  predicate Drives(log: Log, script: seq<OperationState>, troubles: seq<Trouble>)
    requires |troubles| == |script|
  {
    var (last, done) := Drive(log, script, troubles);
    done == |script| && last.saved.state == ([log.saved.state] + script)[|script|]
  }

  /** A saga can bring an operation from `state` to the last state of its script exactly when the script is a path. */
  lemma ScriptCompletesIffPath(opType: OperationType, state: OperationState, script: seq<OperationState>)
    ensures IsPath([state] + script) <==>
            exists troubles :: |troubles| == |script| && Drives(LoadedAt(opType, state), script, troubles)
  {
    var log := LoadedAt(opType, state);
    ReachIsPath(state, script);
    var calm: seq<Trouble> := seq(|script|, _ => NoTrouble);
    assert forall i :: 0 <= i < |calm| ==> calm[i] == NoTrouble;
    DriveAdvances(log, script, calm);
    if IsPath([state] + script) {
      DriveSaves(log, script, calm);
      assert Drives(log, script, calm);
    }
    forall troubles | |troubles| == |script| && Drives(log, script, troubles) ensures Reach(state, script) == |script| {
      DriveAdvances(log, script, troubles);
    }
  }

  const FailoverScript: seq<OperationState> := [Preparing, Validating, Switching, Switched, Finalized]
  const MigrationScript: seq<OperationState> :=
    [Preparing, Validating, Validating, DryRun, DryRun, Switching, Switched, Reconciling, Reconciling, Monitoring,
     Finalized]
  const ProvisioningScript: seq<OperationState> := [Preparing, Validating, Switching, Monitoring, Finalized]

  /** How far each saga's script gets from a state in which a call can find the operation. */
  lemma ScriptReaches()
    ensures IsPath([Requested] + FailoverScript)
    ensures Reach(Requested, MigrationScript) == 2 && Reach(Requested, ProvisioningScript) == 3
    ensures forall state :: state != Requested ==> Reach(state, MigrationScript) == 0
  {
    var m1, m2 := MigrationScript[1..], MigrationScript[1..][1..];
    assert m1[0] == Validating && m2[0] == Validating;
    assert Reach(Validating, m2) == 0 && Reach(Preparing, m1) == 1;
    var p1 := ProvisioningScript[1..];
    var p2 := p1[1..];
    var p3 := p2[1..];
    assert p1[0] == Validating && p2[0] == Switching && p3[0] == Monitoring;
    assert Reach(Switching, p3) == 0 && Reach(Validating, p2) == 1 && Reach(Preparing, p1) == 2;
  }

  // ----- the migration and provisioning sagas -----

  datatype Effect = MigratorUp | RoutesSwitched | MigratorDown | RouteRepublished | TenantActivated

  /** Effects of the migration script, placed after SWITCHING and after SWITCHED. */
  function MigrationEffects(done: nat): seq<Effect> {
    (if done >= 6 then [MigratorUp] else []) + (if done >= 7 then [RoutesSwitched] else [])
  }

  /** How far `executeRollback` gets: it stops before the migrator runs down, or between that and the resolved route,
      or it has a route, which carries a version if the policies evaluated it, and may publish it again. */
  datatype Undo = NotDown | DownOnly | Resolved(version: Option<nat>, publishes: bool)

  /** The migrator runs up once SWITCHING has gone through, and routes are switched once SWITCHED has. */
  lemma EffectsFollowScript(done: nat)
    requires done <= |MigrationScript|
    ensures MigratorUp in MigrationEffects(done) <==> Switching in MigrationScript[..done]
    ensures RoutesSwitched in MigrationEffects(done) <==> Switched in MigrationScript[..done]
  {
    assert MigrationScript[5] == Switching && MigrationScript[6] == Switched;
    assert done >= 6 ==> MigrationScript[..done][5] == Switching;
    assert done >= 7 ==> MigrationScript[..done][6] == Switched;
  }

  /** One call: what goes wrong in the script, at the ROLLBACK request and in what undoes the migration;
      `crash` cuts the call off after that many script requests. */
  datatype Call = Call(troubles: seq<Trouble>, atRollback: Trouble, undo: Undo, crash: nat)

  /** The script as far as the process lives. */
  function DriveUntil(log: Log, script: seq<OperationState>, call: Call): (Log, nat)
    requires |call.troubles| == |script|
  {
    var cut := if call.crash < |script| then call.crash else |script|;
    Drive(log, script[..cut], call.troubles[..cut])
  }

  /** A route with a version above one is published again, which raises its generation. */
  function UndoEffects(undo: Undo): seq<Effect> {
    match undo
    case NotDown => []
    case DownOnly => [MigratorDown]
    case Resolved(version, publishes) =>
      if version.Some? && version.value > 1 && publishes then [MigratorDown, RouteRepublished] else [MigratorDown]
  }

  /** Whether `executeRollback` returns, so that ROLLBACK is asked for once more. */
  predicate UndoReturns(undo: Undo) {
    undo.Resolved? && (undo.version.Some? && undo.version.value > 1 ==> undo.publishes)
  }

  /** The `catch` of the migration: ROLLBACK, the migrator down, the route once more, and ROLLBACK asked for again. */
  function MigrationRollback(log: Log, call: Call): (Log, seq<Effect>) {
    var (back, ok) := Transition(log, Rollback, call.atRollback);
    if !ok then (back, [])
    else (if UndoReturns(call.undo) then Transition(back, Rollback, NoTrouble).0 else back, UndoEffects(call.undo))
  }

  function MigrationCall(log: Log, call: Call): (Log, seq<Effect>)
    requires |call.troubles| == |MigrationScript|
  {
    var start := Reload(log);
    if start.saved.state == Finalized then (start, [])
    else
      var (last, done) := DriveUntil(start, MigrationScript, call);
      if done == |MigrationScript| || call.crash < |MigrationScript| then (last, MigrationEffects(done))
      else
        var (back, effects) := MigrationRollback(last, call);
        (back, MigrationEffects(done) + effects)
  }

  /** The call that lives to its end throws unless its operation was FINALIZED or its script ran through. */
  predicate MigrationThrows(log: Log, call: Call)
    requires |call.troubles| == |MigrationScript|
  {
    && log.saved.state != Finalized && call.crash >= |MigrationScript|
    && DriveUntil(Reload(log), MigrationScript, call).1 != |MigrationScript|
  }

  /** What undoes a migration is the migrator run down, wherever it gets that far, and the route published once more
      where it has a version above one and that works. */
  lemma UndoEffectsAre(undo: Undo, version: Option<nat>)
    ensures undo == NotDown <==> UndoEffects(undo) == []
    ensures undo == DownOnly ==> UndoEffects(undo) == [MigratorDown]
    ensures UndoEffects(Resolved(version, false)) == [MigratorDown]
    ensures UndoEffects(Resolved(version, true)) ==
            if version.Some? && version.value >= 2 then [MigratorDown, RouteRepublished] else [MigratorDown]
  {
  }

  function MigrationCalls(log: Log, calls: seq<Call>): (Log, seq<Effect>)
    requires forall i :: 0 <= i < |calls| ==> |calls[i].troubles| == |MigrationScript|
  {
    if calls == [] then (log, [])
    else
      var (before, effects) := MigrationCalls(log, calls[..|calls| - 1]);
      var (after, more) := MigrationCall(before, calls[|calls| - 1]);
      (after, effects + more)
  }

  predicate MigrationBound(log: Log) {
    log.saved.opType == log.memory.opType == Migrate && log.saved.state in {Requested, Preparing, Validating, Rollback}
  }

  lemma {:induction false} ReachOfPrefix(state: OperationState, script: seq<OperationState>, cut: nat)
    requires cut <= |script|
    ensures Reach(state, script[..cut]) <= Reach(state, script)
    decreases |script|
  {
    if cut > 0 {
      assert script[..cut][1..] == script[1..][..cut - 1];
      if !IsInvalidTransition(state, script[0]) { ReachOfPrefix(script[0], script[1..], cut - 1); }
    }
  }

  lemma DriveStaysBelow(log: Log, script: seq<OperationState>, troubles: seq<Trouble>, bound: nat)
    requires |troubles| == |script| && log.memory == log.saved
    requires Reach(log.saved.state, script) <= bound <= |script|
    ensures var (last, done) := Drive(log, script, troubles);
      && done <= bound && last.saved.opType == last.memory.opType == log.saved.opType
      && (last.saved.state == log.saved.state || last.saved.state in script[..bound])
  {
    DriveAdvances(log, script, troubles);
    var (last, done) := Drive(log, script, troubles);
    if last.saved.state != log.saved.state {
      var k := if done < Reach(log.saved.state, script) && last.saved.state == script[done] then done else done - 1;
      assert script[..bound][k] == last.saved.state;
    }
  }

  lemma MigrationScriptStaysBound(log: Log, cut: nat, troubles: seq<Trouble>)
    requires cut <= |MigrationScript| && |troubles| == cut && MigrationBound(log) && log.memory == log.saved
    ensures var (last, done) := Drive(log, MigrationScript[..cut], troubles);
      MigrationBound(last) && done <= 2
  {
    ScriptReaches();
    ReachOfPrefix(log.saved.state, MigrationScript, cut);
    var bound := if cut < 2 then cut else 2;
    DriveStaysBelow(log, MigrationScript[..cut], troubles, bound);
    assert MigrationScript[..cut][..bound] <= [Preparing, Validating];
  }

  lemma RollbackStaysBound(log: Log, trouble: Trouble) returns (after: Log)
    requires MigrationBound(log)
    ensures after == Transition(log, Rollback, trouble).0 && MigrationBound(after)
  {
    after := Transition(log, Rollback, trouble).0;
  }

  predicate UndoesAt(effects: seq<Effect>, i: nat)
    requires i < |effects|
  {
    effects[i] == MigratorDown || (effects[i] == RouteRepublished && i > 0 && effects[i - 1] == MigratorDown)
  }

  /** Nothing but the migrator run down, each time followed by at most one publication of the route. */
  ghost predicate OnlyUndoes(effects: seq<Effect>) {
    forall i :: 0 <= i < |effects| ==> UndoesAt(effects, i)
  }

  lemma OnlyUndoesGrows(effects: seq<Effect>, more: seq<Effect>)
    requires OnlyUndoes(effects) && OnlyUndoes(more)
    ensures OnlyUndoes(effects + more)
  {
    forall i | 0 <= i < |effects + more| ensures UndoesAt(effects + more, i) {
      if i < |effects| { assert UndoesAt(effects, i); } else { assert UndoesAt(more, i - |effects|); }
    }
  }

  lemma MigrationCallStaysBound(log: Log, call: Call)
    requires |call.troubles| == |MigrationScript| && MigrationBound(log)
    ensures var (after, effects) := MigrationCall(log, call); MigrationBound(after) && OnlyUndoes(effects)
  {
    var start := Reload(log);
    var cut := if call.crash < |MigrationScript| then call.crash else |MigrationScript|;
    MigrationScriptStaysBound(start, cut, call.troubles[..cut]);
    var (last, done) := DriveUntil(start, MigrationScript, call);
    var back := RollbackStaysBound(last, call.atRollback);
    var again := RollbackStaysBound(back, NoTrouble);
  }

  /** A call that is cut off within its script undoes nothing: ROLLBACK is not asked for, nor does the migrator run. */
  lemma CrashedMigrationUndoesNothing(call: Call)
    requires |call.troubles| == |MigrationScript| && call.crash < |MigrationScript|
    ensures var (log, effects) := MigrationCall(Fresh(Migrate), call);
      effects == [] && log.saved.state in {Requested, Preparing, Validating}
  {
    var cut := MigrationScript[..call.crash];
    ScriptReaches();
    ReachOfPrefix(Requested, MigrationScript, call.crash);
    DriveStaysBelow(Fresh(Migrate), cut, call.troubles[..call.crash], if call.crash < 2 then call.crash else 2);
    assert cut[..if call.crash < 2 then call.crash else 2] <= [Preparing, Validating];
  }

  /** No number of migration calls with one key, whatever fails and wherever they crash, gets past VALIDATING: the
      migrator never runs up, routes are never switched and the operation is never FINALIZED; all that happens is
      what undoes a migration. */
  lemma {:induction false} MigrationNeverFinalizes(calls: seq<Call>)
    requires forall i :: 0 <= i < |calls| ==> |calls[i].troubles| == |MigrationScript|
    ensures var (log, effects) := MigrationCalls(Fresh(Migrate), calls); MigrationBound(log) && OnlyUndoes(effects)
  {
    if calls != [] {
      var (before, effects) := MigrationCalls(Fresh(Migrate), calls[..|calls| - 1]);
      MigrationNeverFinalizes(calls[..|calls| - 1]);
      MigrationCallStaysBound(before, calls[|calls| - 1]);
      OnlyUndoesGrows(effects, MigrationCall(before, calls[|calls| - 1]).1);
    }
  }

  /** So every call that is not cut off throws; were its operation ever FINALIZED, it would return and change
      nothing. */
  lemma EveryMigrationThrows(calls: seq<Call>, call: Call, log: Log)
    requires forall i :: 0 <= i < |calls| ==> |calls[i].troubles| == |MigrationScript|
    requires |call.troubles| == |MigrationScript|
    ensures MigrationThrows(MigrationCalls(Fresh(Migrate), calls).0, call) <==> call.crash >= |MigrationScript|
    ensures log.saved.state == Finalized ==>
        !MigrationThrows(log, call) && MigrationCall(log, call) == (Reload(log), [])
  {
    MigrationNeverFinalizes(calls);
    var before := MigrationCalls(Fresh(Migrate), calls).0;
    var cut := if call.crash < |MigrationScript| then call.crash else |MigrationScript|;
    MigrationScriptStaysBound(Reload(before), cut, call.troubles[..cut]);
  }

  /** A first migration call that nothing disturbs runs the migrator down, although it never ran up, publishes an
      evaluated route of a later version again, and ends in ROLLBACK. */
  lemma UndisturbedMigrationRollsBack(call: Call, version: Option<nat>)
    requires call.troubles == seq(|MigrationScript|, _ => NoTrouble)
    requires call.atRollback == NoTrouble && call.undo == Resolved(version, true) && call.crash >= |MigrationScript|
    ensures var (log, effects) := MigrationCall(Fresh(Migrate), call);
      && log.saved.state == Rollback
      && effects == if version.Some? && version.value > 1 then [MigratorDown, RouteRepublished] else [MigratorDown]
  {
    ScriptReaches();
    assert MigrationScript[..|MigrationScript|] == MigrationScript
        && call.troubles[..|MigrationScript|] == call.troubles;
    DriveAdvances(Fresh(Migrate), MigrationScript, call.troubles);
    assert Drive(Fresh(Migrate), MigrationScript, call.troubles).1 == 2;
    DriveKeepsMemory(Fresh(Migrate), MigrationScript, call.troubles);
  }

  lemma {:induction false} MigrationStopsAtAppend(troubles: seq<Trouble>, k: nat)
    requires |troubles| == |MigrationScript| && k < 2 && troubles[k] == AtJournal
    requires forall i :: 0 <= i < k ==> troubles[i] == NoTrouble
    ensures var (last, done) := Drive(Fresh(Migrate), MigrationScript, troubles);
      && done == k && last.memory == last.saved && MigrationBound(last)
  {
    ScriptReaches();
    DriveAdvances(Fresh(Migrate), MigrationScript, troubles);
    assert !Harmless(troubles[k], Migrate);
    StoppedByAppend(Fresh(Migrate), MigrationScript, troubles, k);
    assert MigrationScript[..|MigrationScript|] == MigrationScript;
    MigrationScriptStaysBound(Fresh(Migrate), |MigrationScript|, troubles);
  }

  /** So a first migration whose append of PREPARING or VALIDATING fails stops there, at its `k`-th request, and ends
      in ROLLBACK. */
  lemma {:induction false} FailedAppendRollsMigrationBack(call: Call, k: nat)
    requires |call.troubles| == |MigrationScript| && k < 2 && call.troubles[k] == AtJournal
    requires forall i :: 0 <= i < k ==> call.troubles[i] == NoTrouble
    requires call.atRollback == NoTrouble && call.crash >= |MigrationScript|
    ensures DriveUntil(Fresh(Migrate), MigrationScript, call).1 == k
    ensures MigrationCall(Fresh(Migrate), call).0.saved.state == Rollback
  {
    MigrationStopsAtAppend(call.troubles, k);
    var n := |MigrationScript|;
    assert MigrationScript[..n] == MigrationScript && call.troubles[..n] == call.troubles;
    var last := Drive(Fresh(Migrate), MigrationScript, call.troubles).0;
    assert !IsClosing(last.saved.state) by { AppendLeavesOpen(call.troubles, k); }
    OnlyFinalizedIsTerminal(last.saved.state);
  }

  lemma {:induction false} AppendLeavesOpen(troubles: seq<Trouble>, k: nat)
    requires |troubles| == |MigrationScript| && k < 2
    requires Drive(Fresh(Migrate), MigrationScript, troubles).1 == k
    ensures !IsClosing(Drive(Fresh(Migrate), MigrationScript, troubles).0.saved.state)
  {
    ScriptReaches();
    DriveAdvances(Fresh(Migrate), MigrationScript, troubles);
    assert MigrationScript[0] == Preparing && MigrationScript[1] == Validating;
  }

  /** Where only an append has failed, memory and database agree when the script stops. */
  lemma {:induction false} StoppedByAppend(log: Log, script: seq<OperationState>, troubles: seq<Trouble>, k: nat)
    requires |troubles| == |script| && log.memory == log.saved && k < |script|
    requires troubles[k] == AtJournal && forall i :: 0 <= i < k ==> troubles[i] == NoTrouble
    requires Drive(log, script, troubles).1 <= k
    ensures var last := Drive(log, script, troubles).0; last.memory == last.saved
    decreases |script|
  {
    var (after, ok) := Transition(log, script[0], troubles[0]);
    if ok { StoppedByAppend(after, script[1..], troubles[1..], k - 1); }
  }

  /** Without faults at or after the flush, memory and database agree when the script stops. */
  lemma {:induction false} DriveKeepsMemory(log: Log, script: seq<OperationState>, troubles: seq<Trouble>)
    requires |troubles| == |script| && log.memory == log.saved
    requires forall i :: 0 <= i < |troubles| ==> troubles[i] == NoTrouble
    ensures var (last, _) := Drive(log, script, troubles); last.memory == last.saved
    decreases |script|
  {
    if script != [] && Transition(log, script[0], troubles[0]).1 {
      DriveKeepsMemory(Transition(log, script[0], troubles[0]).0, script[1..], troubles[1..]);
    }
  }

  /** One provisioning run; activation follows the whole script. */
  function ProvisioningRun(call: Call): (Log, seq<Effect>)
    requires |call.troubles| == |ProvisioningScript|
  {
    var (last, done) := DriveUntil(Fresh(Provision), ProvisioningScript, call);
    if done == |ProvisioningScript| then (last, [TenantActivated])
    else if call.crash < |ProvisioningScript| then (last, [])
    else (Transition(last, Rollback, call.atRollback).0, [])
  }

  lemma ProvisioningScriptStops(log: Log, call: Call)
    requires |call.troubles| == |ProvisioningScript| && log == Fresh(Provision)
    ensures var (last, done) := DriveUntil(log, ProvisioningScript, call);
      done <= 3 && last.saved.state in {Requested, Preparing, Validating, Switching}
  {
    ScriptReaches();
    var cut := if call.crash < |ProvisioningScript| then call.crash else |ProvisioningScript|;
    ReachOfPrefix(Requested, ProvisioningScript, cut);
    DriveStaysBelow(log, ProvisioningScript[..cut], call.troubles[..cut], if cut < 3 then cut else 3);
    assert ProvisioningScript[..cut][..if cut < 3 then cut else 3] <= [Preparing, Validating, Switching];
  }

  predicate IsUndisturbed(call: Call) {
    && call.troubles == seq(|ProvisioningScript|, _ => NoTrouble)
    && call.atRollback == NoTrouble && call.crash >= |ProvisioningScript|
  }

  /** Provisioning never gets past SWITCHING, so it never activates a tenant; undisturbed, it ends in ROLLBACK. */
  lemma ProvisioningNeverActivates(call: Call)
    requires |call.troubles| == |ProvisioningScript|
    ensures var (log, effects) := ProvisioningRun(call);
      && TenantActivated !in effects
      && log.saved.state in {Requested, Preparing, Validating, Switching, Rollback}
      && (IsUndisturbed(call) ==> log.saved.state == Rollback)
  {
    ProvisioningScriptStops(Fresh(Provision), call);
    if IsUndisturbed(call) {
      assert ProvisioningScript[..|ProvisioningScript|] == ProvisioningScript
          && call.troubles[..|ProvisioningScript|] == call.troubles;
      DriveKeepsMemory(Fresh(Provision), ProvisioningScript, call.troubles);
      OnlyFinalizedIsTerminal(Drive(Fresh(Provision), ProvisioningScript, call.troubles).0.saved.state);
    }
  }
}
