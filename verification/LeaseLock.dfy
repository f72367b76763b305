/** The per-tenant lock of control-plane operations: a key with a lifetime, deleted by whoever releases
    (libs/kernel/tenant/src/lib/tenant-operation.service.ts, acquireLock and releaseLock). */
module LeaseLock {
  import opened Wrappers

  const LOCK_TTL_MS: nat := 30_000

  /** `expiry` is the stored key with its end of life; `inside` maps each run between acquire and release to the time
      it acquired. */
  datatype Lease = Lease(now: nat, expiry: Option<nat>, inside: map<nat, nat>)

  /** A run that dies, or whose release fails, leaves the key to its lifetime. */
  datatype Event = Acquire(run: nat) | Release(run: nat) | Die(run: nat) | Elapse(ms: nat)

  predicate Held(lease: Lease) {
    lease.expiry.Some? && lease.now < lease.expiry.value
  }

  function Next(lease: Lease, event: Event): Lease {
    match event
    case Acquire(run) =>
      if Held(lease) || run in lease.inside then lease
      else Lease(lease.now, Some(lease.now + LOCK_TTL_MS), lease.inside[run := lease.now])
    case Release(run) =>
      if run in lease.inside then Lease(lease.now, None, lease.inside - {run}) else lease
    case Die(run) => lease.(inside := lease.inside - {run})
    case Elapse(ms) => lease.(now := lease.now + ms)
  }

  function After(lease: Lease, events: seq<Event>): Lease {
    if events == [] then lease else Next(After(lease, events[..|events| - 1]), events[|events| - 1])
  }

  function Fresh(now: nat): Lease {
    Lease(now, None, map[])
  }

  /** The lock as the service keeps it. */
  class OperationLock {
    var now: nat
    var expiry: Option<nat>
    ghost var inside: map<nat, nat>

    ghost function State(): Lease
      reads this
    {
      Lease(now, expiry, inside)
    }

    method AcquireLock(ghost run: nat) returns (acquired: bool)
      requires run !in inside
      modifies this
      ensures State() == Next(old(State()), Acquire(run))
      ensures acquired <==> run in inside
      ensures acquired <==> old(expiry) == None || old(expiry.value) <= now
      ensures expiry == if acquired then Some(now + 30_000) else old(expiry)
    {
      if expiry.Some? && now < expiry.value { return false; }
      expiry := Some(now + LOCK_TTL_MS);
      inside := inside[run := now];
      return true;
    }

    method ReleaseLock(ghost run: nat)
      requires run in inside
      modifies this
      ensures State() == Next(old(State()), Release(run)) && expiry == None
    {
      expiry := None;
      inside := inside - {run};
    }
  }

  /** A run that dies inside keeps every other out for the rest of its thirty seconds, and no longer; one that releases
      lets the next in at once. */
  lemma DeadRunBlocksThirtySeconds(lease: Lease, dead: nat, other: nat, ms: nat)
    requires !Held(lease) && dead !in lease.inside && other !in lease.inside && other != dead
    ensures var taken := Next(lease, Acquire(dead));
            var late := Next(Next(taken, Die(dead)), Elapse(ms));
      && (other in Next(late, Acquire(other)).inside <==> ms >= 30_000)
      && other in Next(Next(Next(taken, Elapse(ms)), Release(dead)), Acquire(other)).inside
  {
  }

  /** No run inside has outlived the lock it took. */
  predicate Punctual(lease: Lease) {
    forall run :: run in lease.inside ==> lease.now < lease.inside[run] + LOCK_TTL_MS
  }

  ghost predicate AlwaysPunctual(lease: Lease, events: seq<Event>) {
    Punctual(After(lease, events)) && (events != [] ==> AlwaysPunctual(lease, events[..|events| - 1]))
  }

  ghost predicate Exclusive(lease: Lease) {
    forall a, b :: a in lease.inside && b in lease.inside ==> a == b
  }

  ghost predicate AlwaysExclusive(lease: Lease, events: seq<Event>) {
    Exclusive(After(lease, events)) && (events != [] ==> AlwaysExclusive(lease, events[..|events| - 1]))
  }

  /** A run acquires the lock while another is still inside whose thirty seconds are over. */
  ghost predicate Overtakes(lease: Lease, event: Event) {
    && event.Acquire? && !Held(lease) && event.run !in lease.inside
    && exists run :: run in lease.inside && lease.inside[run] + LOCK_TTL_MS <= lease.now
  }

  ghost predicate NeverOvertaken(lease: Lease, events: seq<Event>) {
    events != [] ==>
      && NeverOvertaken(lease, events[..|events| - 1])
      && !Overtakes(After(lease, events[..|events| - 1]), events[|events| - 1])
  }

  ghost predicate LockCovers(lease: Lease) {
    forall run :: run in lease.inside ==> lease.expiry == Some(lease.inside[run] + LOCK_TTL_MS)
  }

  lemma StepKeepsLockCovers(lease: Lease, event: Event)
    requires Exclusive(lease) && LockCovers(lease)
    ensures if Overtakes(lease, event) then !Exclusive(Next(lease, event))
            else Exclusive(Next(lease, event)) && LockCovers(Next(lease, event))
  {
    if event.Acquire? && event.run !in lease.inside {
      var after := Next(lease, event);
      forall run | run in lease.inside ensures Held(lease) <==> lease.now < lease.inside[run] + LOCK_TTL_MS {}
      if Overtakes(lease, event) {
        var run :| run in lease.inside && lease.inside[run] + LOCK_TTL_MS <= lease.now;
        assert run in after.inside && event.run in after.inside;
      }
    }
  }

  /** Over every schedule: at most one run is ever between acquire and release exactly when no run acquires the lock
      while an overrunning one is still inside. */
  lemma {:induction false} ExclusiveIffNeverOvertaken(events: seq<Event>, start: nat)
    ensures AlwaysExclusive(Fresh(start), events) <==> NeverOvertaken(Fresh(start), events)
    ensures AlwaysExclusive(Fresh(start), events) ==> LockCovers(After(Fresh(start), events))
  {
    if events != [] {
      ExclusiveIffNeverOvertaken(events[..|events| - 1], start);
      if AlwaysExclusive(Fresh(start), events[..|events| - 1]) {
        StepKeepsLockCovers(After(Fresh(start), events[..|events| - 1]), events[|events| - 1]);
      }
    }
  }

  lemma {:induction false} PunctualIsNeverOvertaken(events: seq<Event>, start: nat)
    requires AlwaysPunctual(Fresh(start), events)
    ensures NeverOvertaken(Fresh(start), events)
  {
    if events != [] {
      PunctualIsNeverOvertaken(events[..|events| - 1], start);
      PunctualBefore(Fresh(start), events);
    }
  }

  lemma PunctualBefore(lease: Lease, events: seq<Event>)
    requires events != [] && AlwaysPunctual(lease, events)
    ensures Punctual(After(lease, events[..|events| - 1]))
  {
    assert AlwaysPunctual(lease, events[..|events| - 1]);
  }

  /** So while every run releases within the lock's lifetime, no two are ever inside together. */
  lemma PunctualRunsExclude(events: seq<Event>, start: nat)
    requires AlwaysPunctual(Fresh(start), events)
    ensures AlwaysExclusive(Fresh(start), events) && LockCovers(After(Fresh(start), events))
  {
    PunctualIsNeverOvertaken(events, start);
    ExclusiveIffNeverOvertaken(events, start);
  }

  /** One overrunning run is enough to put two others inside together, both of them punctual: it deletes a lock it no
      longer owns. */
  lemma OverrunBreaksOthers()
    ensures exists events ::
              var end := After(Fresh(0), events);
              Punctual(end) && !Exclusive(end)
  {
    var a0, e, a1, r0, a2 := Acquire(0), Elapse(LOCK_TTL_MS), Acquire(1), Release(0), Acquire(2);
    FiveSteps(Fresh(0), a0, e, a1, r0, a2);
    var late := Lease(LOCK_TTL_MS, Some(2 * LOCK_TTL_MS), map[0 := 0, 1 := LOCK_TTL_MS]);
    assert Next(Next(Next(Fresh(0), a0), e), a1) == late;
    var end := After(Fresh(0), [a0, e, a1, r0, a2]);
    assert 1 in end.inside && 2 in end.inside;
  }

  lemma FiveSteps(lease: Lease, a: Event, b: Event, c: Event, d: Event, e: Event)
    ensures After(lease, [a, b, c, d, e]) == Next(Next(Next(Next(Next(lease, a), b), c), d), e)
  {
    var events := [a, b, c, d, e];
    Unfold(lease, events, 0); Unfold(lease, events, 1); Unfold(lease, events, 2);
    Unfold(lease, events, 3); Unfold(lease, events, 4);
    assert events[..5] == events;
  }

  lemma Unfold(lease: Lease, events: seq<Event>, k: nat)
    requires k < |events|
    ensures After(lease, events[..k + 1]) == Next(After(lease, events[..k]), events[k])
  {
    assert events[..k + 1][..k] == events[..k];
  }
}
