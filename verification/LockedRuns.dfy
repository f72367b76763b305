/** Failover calls behind the tenant's lock (libs/kernel/tenant/src/lib/failover.service.ts,
    triggerRegionalFailover): the lock joined with the schedules of ControlPlaneWorld, and what it gives each call. */
module LockedRuns {
  import opened Wrappers
  import opened OperationTable
  import opened RoutingPlane
  import opened FailoverSaga
  import opened FailoverRuns
  import opened FailoverOutcome
  import FailoverRetries
  import LeaseLock
  import Plane = ControlPlaneWorld

  /** What a call in progress started from, and which of its awaited calls fail. */
  datatype Origin = Origin(start: Db, fails: set<Pc>)

  datatype World = World(lease: LeaseLock.Lease, plane: Plane.World, origins: map<nat, Origin>)

  /** `Beside` is any event of the plane that is not a run's. */
  datatype Event =
    | Call(id: nat, key: string, token: string, fails: set<Pc>)
    | Proceed(id: nat)
    | Crash(id: nat)
    | Elapse(ms: nat)
    | Beside(event: Plane.Event)

  predicate IsBeside(event: Plane.Event) {
    event.ReadSnapshot? || event.Decide? || event.Publish? || event.UpdateStatus?
  }

  /** A call that does not get the lock throws and changes nothing. */
  predicate GetsLock(world: World, event: Event) {
    event.Call? && !LeaseLock.Held(world.lease) && event.id !in world.lease.inside
  }

  function Begun(world: World, event: Event): World
    requires event.Call?
  {
    World(LeaseLock.Next(world.lease, LeaseLock.Acquire(event.id)),
          Plane.Next(world.plane, Plane.Begin(event.id, event.key, event.token)),
          world.origins[event.id := Origin(world.plane.db, event.fails)])
  }

  /** A run takes its next step; standing before the release it gives the lock back and is gone. */
  function Proceeded(world: World, id: nat): World
    requires id in world.plane.runs && id in world.origins
  {
    var pc := world.plane.runs[id].pc;
    if pc == Releasing then
      World(LeaseLock.Next(world.lease, LeaseLock.Release(id)), Plane.Next(world.plane, Plane.Crash(id)),
            world.origins - {id})
    else world.(plane := Plane.Next(world.plane, Plane.RunStep(id, pc !in world.origins[id].fails)))
  }

  function Next(world: World, event: Event): World {
    match event
    case Call(_, _, _, _) => if GetsLock(world, event) then Begun(world, event) else world
    case Proceed(id) => if id in world.plane.runs && id in world.origins then Proceeded(world, id) else world
    case Crash(id) =>
      World(LeaseLock.Next(world.lease, LeaseLock.Die(id)), Plane.Next(world.plane, Plane.Crash(id)),
            world.origins - {id})
    case Elapse(ms) =>
      world.(lease := LeaseLock.Next(world.lease, LeaseLock.Elapse(ms)),
             plane := Plane.Next(world.plane, Plane.Elapse(ms)))
    case Beside(event) => if IsBeside(event) then world.(plane := Plane.Next(world.plane, event)) else world
  }

  function After(db: Db, events: seq<Event>): World {
    if events == [] then World(LeaseLock.Fresh(db.now), Plane.World(db, map[], map[]), map[])
    else Next(After(db, events[..|events| - 1]), events[|events| - 1])
  }

  // ----- no two at once -----

  ghost predicate RunsHoldLock(world: World) {
    && world.plane.runs.Keys == world.lease.inside.Keys == world.origins.Keys
    && world.lease.now == world.plane.db.now
  }

  ghost predicate Apart(world: World) {
    forall a, b :: a in world.plane.runs && b in world.plane.runs ==> a == b
  }

  ghost predicate AlwaysApart(db: Db, events: seq<Event>) {
    Apart(After(db, events)) && (events != [] ==> AlwaysApart(db, events[..|events| - 1]))
  }

  /** A call gets the lock while a run that has outlived it is still under way. */
  ghost predicate Overtakes(world: World, event: Event) {
    GetsLock(world, event) && LeaseLock.Overtakes(world.lease, LeaseLock.Acquire(event.id))
  }

  ghost predicate NeverOvertaken(db: Db, events: seq<Event>) {
    events != [] ==>
      NeverOvertaken(db, events[..|events| - 1]) && !Overtakes(After(db, events[..|events| - 1]), events[|events| - 1])
  }

  ghost predicate AlwaysPunctual(db: Db, events: seq<Event>) {
    LeaseLock.Punctual(After(db, events).lease) && (events != [] ==> AlwaysPunctual(db, events[..|events| - 1]))
  }

  /** What the event means to the lock. */
  function LockEvent(world: World, event: Event): LeaseLock.Event {
    match event
    case Call(id, _, _, _) => LeaseLock.Acquire(id)
    case Proceed(id) =>
      var releases := id in world.plane.runs && id in world.origins && world.plane.runs[id].pc == Releasing;
      if releases then LeaseLock.Release(id) else LeaseLock.Elapse(0)
    case Crash(id) => LeaseLock.Die(id)
    case Elapse(ms) => LeaseLock.Elapse(ms)
    case Beside(_) => LeaseLock.Elapse(0)
  }

  lemma NextIsLocked(world: World, event: Event)
    requires RunsHoldLock(world)
    ensures RunsHoldLock(Next(world, event))
    ensures Next(world, event).lease == LeaseLock.Next(world.lease, LockEvent(world, event))
  {
    if event.Proceed? && event.id in world.plane.runs {
      StepKeepsNow(world.plane.db, world.plane.runs[event.id],
                   world.plane.runs[event.id].pc !in world.origins[event.id].fails);
    }
  }

  /** Over every schedule of calls, crashes, delays and other writers: runs never overlap exactly when no call gets
      the lock while an overrunning run is under way. */
  lemma {:induction false} ApartIffNeverOvertaken(db: Db, events: seq<Event>)
    ensures RunsHoldLock(After(db, events))
    ensures AlwaysApart(db, events) <==> NeverOvertaken(db, events)
    ensures AlwaysApart(db, events) ==> LeaseLock.LockCovers(After(db, events).lease)
  {
    if events != [] {
      var shorter, event := events[..|events| - 1], events[|events| - 1];
      ApartIffNeverOvertaken(db, shorter);
      var before := After(db, shorter);
      NextIsLocked(before, event);
      ApartIsExclusive(before);
      ApartIsExclusive(Next(before, event));
      if AlwaysApart(db, shorter) { LeaseLock.StepKeepsLockCovers(before.lease, LockEvent(before, event)); }
    }
  }

  lemma ApartIsExclusive(world: World)
    requires RunsHoldLock(world)
    ensures Apart(world) <==> LeaseLock.Exclusive(world.lease)
  {
    assert forall id :: id in world.plane.runs <==> id in world.lease.inside by {
      assert forall id :: id in world.plane.runs <==> id in world.plane.runs.Keys;
    }
  }

  /** So runs that finish within the lock's lifetime never overlap. */
  lemma {:induction false} PunctualRunsNeverOverlap(db: Db, events: seq<Event>)
    requires AlwaysPunctual(db, events)
    ensures AlwaysApart(db, events) && NeverOvertaken(db, events)
  {
    ApartIffNeverOvertaken(db, events);
    if events != [] {
      PunctualRunsNeverOverlap(db, events[..|events| - 1]);
      assert AlwaysPunctual(db, events[..|events| - 1]);
    }
  }

  // ----- what each call then leaves -----

  function At(db: Db, now: nat): Db {
    db.(now := now)
  }

  /** The run is on its way from the rows it started from, but for the time that has passed. */
  ghost predicate OnItsWay(origin: Origin, db: Db, run: Run) {
    exists start ::
      && RunInv(start, db, run) && start == At(origin.start, db.now)
      && (RecoveryPcs !! origin.fails ==> EndInv(start, db, run, origin.fails))
  }

  lemma TimeKeepsTransition(start: Db, db: Db, run: Run, now: nat)
    requires RunInv(start, db, run) && (run.pc.Enter? || run.pc.Journal?)
    ensures RunInv(At(start, now), At(db, now), run)
  {
  }

  lemma TimeKeepsInv(start: Db, db: Db, run: Run, now: nat)
    requires RunInv(start, db, run)
    ensures RunInv(At(start, now), At(db, now), run)
  {
    if run.pc.Enter? || run.pc.Journal? { TimeKeepsTransition(start, db, run, now); }
  }

  lemma TimeKeepsEnd(start: Db, db: Db, run: Run, fails: set<Pc>, now: nat)
    requires EndInv(start, db, run, fails)
    ensures EndInv(At(start, now), At(db, now), run, fails)
  {
    TimeKeepsInv(start, db, run, now);
  }

  ghost predicate AllOnTheirWay(world: World) {
    forall id :: id in world.plane.runs && id in world.origins ==>
      world.plane.runs[id].pc != Done && OnItsWay(world.origins[id], world.plane.db, world.plane.runs[id])
  }

  /** Calls, their crashes and delays, and nobody else who writes. */
  predicate OnlyCalls(events: seq<Event>) {
    forall i :: 0 <= i < |events| ==> !events[i].Beside?
  }

  lemma StartIsOnItsWay(db: Db, key: string, token: string, fails: set<Pc>)
    ensures OnItsWay(Origin(db, fails), db, Start(key, token))
  {
    assert At(db, db.now) == db && RunInv(db, db, Start(key, token));
  }

  lemma StepOnItsWay(origin: Origin, db: Db, run: Run)
    requires OnItsWay(origin, db, run) && run.pc !in {Releasing, Done}
    ensures var (db', run') := Step(db, run, run.pc !in origin.fails); OnItsWay(origin, db', run') && run'.pc != Done
  {
    StepKeepsInv(At(origin.start, db.now), db, run, run.pc !in origin.fails);
    StepKeepsNow(db, run, run.pc !in origin.fails);
    OnlyReleasingEnds(db, run, run.pc !in origin.fails);
    if RecoveryPcs !! origin.fails { StepKeepsEnd(At(origin.start, db.now), db, run, origin.fails); }
  }

  lemma OnlyReleasingEnds(db: Db, run: Run, ok: bool)
    requires run.pc !in {Releasing, Done}
    ensures Step(db, run, ok).1.pc != Done
  {
    if run.pc.Enter? { EnterDoesNotEnd(db, run, run.pc.state, ok); }
  }

  lemma EnterDoesNotEnd(db: Db, run: Run, state: OperationState, ok: bool)
    ensures StepEnter(db, run, state, ok).1.pc != Done
  {
  }

  lemma TimeOnItsWay(origin: Origin, db: Db, run: Run, now: nat)
    requires OnItsWay(origin, db, run)
    ensures OnItsWay(origin, At(db, now), run)
  {
    TimeKeepsInv(At(origin.start, db.now), db, run, now);
    assert At(At(origin.start, db.now), now) == At(origin.start, now);
    if RecoveryPcs !! origin.fails { TimeKeepsEnd(At(origin.start, db.now), db, run, origin.fails, now); }
  }

  /** Whoever gets the lock, and does not overtake, is alone. */
  lemma LockMeansAlone(world: World, event: Event)
    requires RunsHoldLock(world) && LeaseLock.LockCovers(world.lease)
    requires GetsLock(world, event) && !Overtakes(world, event)
    ensures world.plane.runs == map[]
  {
    assert world.lease.inside.Keys == {} by {
      assert forall id :: id in world.lease.inside.Keys <==> id in world.lease.inside;
    }
  }

  lemma CallKeepsWay(world: World, event: Event)
    requires RunsHoldLock(world) && LeaseLock.LockCovers(world.lease)
    requires GetsLock(world, event) && !Overtakes(world, event)
    ensures AllOnTheirWay(Next(world, event))
  {
    LockMeansAlone(world, event);
    StartIsOnItsWay(world.plane.db, event.key, event.token, event.fails);
    var after := Next(world, event);
    assert after.plane.runs == map[event.id := Start(event.key, event.token)] && after.plane.db == world.plane.db;
    assert after.origins[event.id] == Origin(world.plane.db, event.fails);
  }

  lemma ProceedKeepsWay(world: World, id: nat)
    requires RunsHoldLock(world) && Apart(world) && AllOnTheirWay(world) && id in world.plane.runs
    ensures AllOnTheirWay(Next(world, Proceed(id)))
  {
    var db, run := world.plane.db, world.plane.runs[id];
    var after := Next(world, Proceed(id));
    assert id in world.plane.runs.Keys;
    if run.pc == Releasing {
      assert after.plane.runs == map[];
    } else {
      StepOnItsWay(world.origins[id], db, run);
      var (db', run') := Step(db, run, run.pc !in world.origins[id].fails);
      assert after.origins == world.origins && after.plane.db == db' && after.plane.runs[id] == run';
      assert forall other :: other in after.plane.runs ==> other == id;
    }
  }

  lemma DelayKeepsWay(world: World, ms: nat)
    requires AllOnTheirWay(world)
    ensures AllOnTheirWay(Next(world, Event.Elapse(ms)))
  {
    var after := Next(world, Event.Elapse(ms));
    var now := world.plane.db.now + ms;
    forall id | id in after.plane.runs && id in after.origins
      ensures after.plane.runs[id].pc != Done && OnItsWay(after.origins[id], after.plane.db, after.plane.runs[id])
    {
      TimeOnItsWay(world.origins[id], world.plane.db, world.plane.runs[id], now);
      assert after.plane.db == At(world.plane.db, now);
    }
  }

  lemma CrashKeepsWay(world: World, id: nat, after: World)
    requires AllOnTheirWay(world) && after == Next(world, Crash(id))
    ensures AllOnTheirWay(after)
  {
    assert after.plane.db == world.plane.db;
    assert after.plane.runs == world.plane.runs - {id} && after.origins == world.origins - {id};
  }

  lemma EventKeepsWay(world: World, event: Event)
    requires RunsHoldLock(world) && Apart(world) && LeaseLock.LockCovers(world.lease)
    requires AllOnTheirWay(world) && !Overtakes(world, event) && !event.Beside?
    ensures AllOnTheirWay(Next(world, event))
  {
    match event
    case Call(_, _, _, _) => if GetsLock(world, event) { CallKeepsWay(world, event); }
    case Proceed(id) => if id in world.plane.runs && id in world.origins { ProceedKeepsWay(world, id); }
    case Crash(id) => CrashKeepsWay(world, id, Next(world, event));
    case Elapse(ms) => DelayKeepsWay(world, ms);
  }

  lemma {:induction false} CallsKeepWay(db: Db, events: seq<Event>)
    requires OnlyCalls(events) && NeverOvertaken(db, events)
    ensures AllOnTheirWay(After(db, events))
  {
    if events != [] {
      var shorter := events[..|events| - 1];
      CallsKeepWay(db, shorter);
      ApartIffNeverOvertaken(db, shorter);
      EventKeepsWay(After(db, shorter), events[|events| - 1]);
    }
  }

  /** Over every schedule of calls with any keys, faults, crashes and delays in which none overtakes another:
      whatever a call leaves at any of its steps is what a run that started alone from the same rows can leave, and
      before its release it has ended as such a run ends. */
  lemma CallsBehindLockAreAlone(db: Db, events: seq<Event>, id: nat)
    requires OnlyCalls(events) && NeverOvertaken(db, events) && id in After(db, events).plane.runs
    ensures var world := After(db, events);
      && id in world.origins
      && var now, run, fails := world.plane.db, world.plane.runs[id], world.origins[id].fails;
         var start := At(world.origins[id].start, now.now);
         && FenceKept(start, now, now.control)
         && (run.pc == Releasing && RecoveryPcs !! fails ==>
               if TurnedAway(start, run.key, fails) then now == start else Ended(start, now, run.key, fails))
  {
    CallsKeepWay(db, events);
    ApartIffNeverOvertaken(db, events);
    var world := After(db, events);
    assert id in world.plane.runs.Keys;
    InvImpliesFence(At(world.origins[id].start, world.plane.db.now), world.plane.db, world.plane.runs[id]);
  }

  // ----- crashes and retries with one key -----

  ghost predicate OneKey(events: seq<Event>, key: string) {
    forall i :: 0 <= i < |events| && events[i].Call? ==> events[i].key == key
  }

  /** FINALIZED is only ever saved for an unfrozen tenant. */
  predicate FinalizedIsUnfrozen(db: Db, key: string) {
    key in db.operations && db.operations[key].state == Finalized ==> !db.control.isFrozen
  }

  ghost predicate KeepsKey(origin: Origin, db: Db, run: Run, key: string) {
    && run.key == key && FinalizedIsUnfrozen(origin.start, key)
    && if FailoverRetries.NotFinalized(origin.start, key) then FailoverRetries.FinalizedUnfrozen(db, run)
       else db == At(origin.start, db.now) && run.pc in {Creating, Releasing}
  }

  ghost predicate AllKeepKey(world: World, key: string) {
    && FinalizedIsUnfrozen(world.plane.db, key)
    && forall id :: id in world.plane.runs && id in world.origins ==>
         KeepsKey(world.origins[id], world.plane.db, world.plane.runs[id], key)
  }

  lemma StepKeepsKeyInv(origin: Origin, db: Db, run: Run, key: string)
    requires OnItsWay(origin, db, run) && KeepsKey(origin, db, run, key) && run.pc !in {Releasing, Done}
    ensures var (db', run') := Step(db, run, run.pc !in origin.fails);
      KeepsKey(origin, db', run', key) && FinalizedIsUnfrozen(db', key)
  {
    StepKeepsNow(db, run, run.pc !in origin.fails);
    StepKeepsKey(db, run, run.pc !in origin.fails);
    if FailoverRetries.NotFinalized(origin.start, key) {
      FailoverRetries.StepKeepsFinalizedUnfrozen(At(origin.start, db.now), db, run, run.pc !in origin.fails);
    }
  }

  lemma EventKeepsKey(world: World, event: Event, key: string)
    requires RunsHoldLock(world) && Apart(world) && LeaseLock.LockCovers(world.lease) && AllOnTheirWay(world)
    requires AllKeepKey(world, key) && !Overtakes(world, event) && !event.Beside? && (event.Call? ==> event.key == key)
    ensures AllKeepKey(Next(world, event), key)
  {
    var after := Next(world, event);
    match event
    case Call(id, _, token, fails) =>
      if GetsLock(world, event) {
        LockMeansAlone(world, event);
        assert after.plane.runs == map[id := Start(key, token)] && after.plane.db == world.plane.db;
        assert after.origins[id] == Origin(world.plane.db, fails);
      }
    case Proceed(id) =>
      if id in world.plane.runs && id in world.origins && world.plane.runs[id].pc != Releasing {
        StepKeepsKeyInv(world.origins[id], world.plane.db, world.plane.runs[id], key);
        assert forall other :: other in after.plane.runs ==> other == id;
      }
    case Crash(id) => assert after.plane.db == world.plane.db;
    case Elapse(ms) => assert after.plane.db == At(world.plane.db, world.plane.db.now + ms);
  }

  lemma {:induction false} CallsKeepKey(db: Db, events: seq<Event>, key: string)
    requires key !in db.operations && OneKey(events, key) && OnlyCalls(events) && NeverOvertaken(db, events)
    ensures AllKeepKey(After(db, events), key)
  {
    if events != [] {
      var shorter := events[..|events| - 1];
      CallsKeepKey(db, shorter, key);
      CallsKeepWay(db, shorter);
      ApartIffNeverOvertaken(db, shorter);
      EventKeepsKey(After(db, shorter), events[|events| - 1], key);
    }
  }

  /** Any number of calls with one fresh key behind the lock, failing and crashing anywhere and waiting for the lock
      of the dead to expire: a call whose recovery calls hold leaves the operation FINALIZED or in ROLLBACK, or
      SWITCHED when saving FINALIZED failed, and the tenant frozen exactly when it found it frozen under a key in
      ROLLBACK already. */
  lemma CrashThenRetryBehindLock(db: Db, events: seq<Event>, key: string, id: nat)
    requires key !in db.operations && OneKey(events, key) && OnlyCalls(events) && NeverOvertaken(db, events)
    requires var world := After(db, events);
      && id in world.plane.runs && world.plane.runs[id].pc == Releasing
      && (id in world.origins ==> RecoveryPcs !! world.origins[id].fails && Creating !in world.origins[id].fails)
    ensures var world := After(db, events);
      && id in world.origins
      && var end, start := world.plane.db, world.origins[id].start;
         && key in end.operations
         && (end.operations[key].state in {Finalized, OperationState.Rollback}
             || (end.operations[key].state == Switched && Enter(Finalized) in world.origins[id].fails))
         && (end.control.isFrozen <==>
               start.control.isFrozen && key in start.operations
                   && start.operations[key].state == OperationState.Rollback)
  {
    CallsBehindLockAreAlone(db, events, id);
    CallsKeepKey(db, events, key);
  }
}
