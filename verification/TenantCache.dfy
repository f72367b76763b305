/** The cache-aside copy of a tenant's row (libs/kernel/tenant/src/lib/tenant.service.ts): readers fetch and then
    store, writers flush and then delete, and all of them interleave. */
module TenantCache {
  import opened Wrappers

  const TTL_MS: nat := 3_600_000

  datatype Config = Config(mode: string, connectionString: string, schemaName: string, settings: string)

  /** One flush of the row, and when it was made. */
  datatype Version = Version(config: Config, from: nat)

  /** A reader between its fetch and its store; `index` is the version it read. */
  datatype Reading = Reading(index: nat, config: Config, at: nat)

  /** What Redis holds. `fetchedAt` is the moment the storing reader had fetched: Redis does not keep it, the proofs
      do. */
  datatype Entry = Entry(config: Config, fetchedAt: nat, storedAt: nat)

  /** One tenant: every value its row has had, the cache entry, the readers under way, and the flushed versions whose
      delete is outstanding. */
  datatype World = World(now: nat, rows: seq<Version>, cache: Option<Entry>, readings: map<nat, Reading>,
                         pending: set<nat>)

  datatype Event =
    | Hit
    | Fetch(reader: nat)
    | Store(reader: nat, works: bool)
    | Flush(config: Config)
    | Delete(writer: nat, works: bool)
    | Elapse(ms: nat)

  const EMPTY := World(0, [], None, map[], {})

  predicate Live(world: World) {
    world.cache.Some? && world.now < world.cache.value.storedAt + TTL_MS
  }

  function Next(world: World, event: Event): World {
    match event
    case Hit => world
    case Fetch(reader) =>
      if world.rows == [] || reader in world.readings then world
      else
        var last := |world.rows| - 1;
        world.(readings := world.readings[reader := Reading(last, world.rows[last].config, world.now)])
    case Store(reader, works) =>
      if reader !in world.readings then world
      else
        var read := world.readings[reader];
        world.(cache := if works then Some(Entry(read.config, read.at, world.now)) else world.cache,
               readings := world.readings - {reader})
    case Flush(config) =>
      world.(rows := world.rows + [Version(config, world.now)], pending := world.pending + {|world.rows|})
    case Delete(writer, works) =>
      if writer !in world.pending then world
      else world.(cache := if works then None else world.cache, pending := world.pending - {writer})
    case Elapse(ms) => world.(now := world.now + ms)
  }

  /** What the caller of `getTenantConfig` gets at this step, if the call returns at it. */
  function Answer(world: World, event: Event): Option<Config> {
    match event
    case Hit => if Live(world) then Some(world.cache.value.config) else None
    case Store(reader, _) => if reader in world.readings then Some(world.readings[reader].config) else None
    case _ => None
  }

  function After(events: seq<Event>): World {
    if events == [] then EMPTY else Next(After(events[..|events| - 1]), events[|events| - 1])
  }

  datatype CreateInput = CreateInput(id: string, primaryRegion: string, secondaryRegion: string,
                                     complianceProfile: string,
                                     kmsKeyId: string, signingKeyId: string, config: Config)

  /** The service itself, each call run without interruption; the interleavings are the runs of `Next`. */
  class TenantService {
    var now: nat
    var rows: seq<Version>
    var cache: Option<Entry>
    ghost var readings: map<nat, Reading>
    ghost var pending: set<nat>

    ghost function State(): World
      reads this
    {
      World(now, rows, cache, readings, pending)
    }

    method GetTenantConfig(ghost reader: nat, readable: bool, writable: bool) returns (config: Option<Config>)
      requires reader !in readings
      modifies this`cache
      ensures var hit := readable && Live(old(State()));
              var fetched := Next(old(State()), Fetch(reader));
              && State() == (if hit then old(State()) else Next(fetched, Store(reader, writable)))
              && config == (if hit then Answer(old(State()), Hit) else Answer(fetched, Store(reader, writable)))
    {
      if readable && cache.Some? && now < cache.value.storedAt + TTL_MS {
        return Some(cache.value.config);
      }
      if rows == [] { return None; }
      var fetched := rows[|rows| - 1].config;
      if writable {
        cache := Some(Entry(fetched, now, now));
      }
      assert readings[reader := Reading(|rows| - 1, fetched, now)] - {reader} == readings;
      return Some(fetched);
    }

    /** Incomplete input and an existing tenant are conflicts, and nothing is written: nothing required may be missing,
        and a mode with a schema or a database of its own has to name it. `finished` says the control record was flushed
        and the delete went through. */
    method CreateTenant(input: CreateInput, finished: bool) returns (created: bool)
      requires |rows| !in pending
      modifies this`rows, this`cache
      ensures created <==>
              && old(rows) == []
              && input.id != "" && input.config.mode != "" && input.primaryRegion != "" && input.secondaryRegion != ""
              && input.complianceProfile != "" && input.kmsKeyId != "" && input.signingKeyId != ""
              && (input.config.mode == "SCHEMA" ==> input.config.schemaName != "")
              && (input.config.mode == "DATABASE" ==> input.config.connectionString != "")
      ensures State() == if created then Next(Next(old(State()), Flush(input.config)), Delete(0, finished))
          else old(State())
    {
      if input.id == "" || input.config.mode == "" || input.primaryRegion == "" || input.secondaryRegion == ""
        || input.complianceProfile == "" { return false; }
      if input.kmsKeyId == "" || input.signingKeyId == "" { return false; }
      if input.config.mode == "SCHEMA" && input.config.schemaName == "" { return false; }
      if input.config.mode == "DATABASE" && input.config.connectionString == "" { return false; }
      if rows != [] { return false; }
      WriteThrough(input.config, finished);
      return true;
    }

    /** False when there is no such tenant. */
    method UpdateTenant(config: Config, finished: bool) returns (updated: bool)
      requires |rows| !in pending
      modifies this`rows, this`cache
      ensures updated <==> old(rows) != []
      ensures State() == if updated then Next(Next(old(State()), Flush(config)), Delete(|old(rows)|, finished))
          else old(State())
    {
      if rows == [] { return false; }
      WriteThrough(config, finished);
      return true;
    }

    method WriteThrough(config: Config, finished: bool)
      requires |rows| !in pending
      modifies this`rows, this`cache
      ensures State() == Next(Next(old(State()), Flush(config)), Delete(|old(rows)|, finished))
    {
      ghost var before := pending;
      rows := rows + [Version(config, now)];
      if finished { cache := None; }
      assert before + {|old(rows)|} - {|old(rows)|} == before;
    }
  }

  /** What a reader has stored is hit for an hour and no longer, unless something is stored or deleted in between. */
  lemma StoredIsHitForAnHour(world: World, reader: nat, ms: nat)
    requires reader in world.readings
    ensures var later := Next(Next(world, Store(reader, true)), Elapse(ms));
      Answer(later, Hit) == if ms < 3_600_000 then Some(world.readings[reader].config) else None
  {
  }

  // ----------------------------------------------------------------- nothing but values the row held, none too old

  predicate HeldAt(rows: seq<Version>, i: int, config: Config, time: nat) {
    && 0 <= i < |rows|
    && rows[i].config == config
    && rows[i].from <= time
    && (i + 1 < |rows| ==> time <= rows[i + 1].from)
  }

  ghost predicate ReallyHeld(rows: seq<Version>, config: Config, time: nat) {
    exists i :: HeldAt(rows, i, config, time)
  }

  ghost predicate Honest(world: World) {
    && (forall i, j :: 0 <= i <= j < |world.rows| ==> world.rows[i].from <= world.rows[j].from)
    && (forall i :: 0 <= i < |world.rows| ==> world.rows[i].from <= world.now)
    && (forall r :: r in world.readings ==>
          world.readings[r].at <= world.now
              && HeldAt(world.rows, world.readings[r].index, world.readings[r].config, world.readings[r].at))
    && (world.cache.Some? ==>
          && world.cache.value.fetchedAt <= world.cache.value.storedAt <= world.now
          && ReallyHeld(world.rows, world.cache.value.config, world.cache.value.fetchedAt))
    && (forall w :: w in world.pending ==> w < |world.rows|)
  }

  lemma HeldStaysHeld(rows: seq<Version>, more: Version, config: Config, time: nat)
    requires ReallyHeld(rows, config, time) && time <= more.from
    ensures ReallyHeld(rows + [more], config, time)
  {
    var i :| HeldAt(rows, i, config, time);
    assert HeldAt(rows + [more], i, config, time);
  }

  lemma FlushKeepsHonest(world: World, config: Config)
    requires Honest(world)
    ensures Honest(Next(world, Flush(config)))
  {
    if world.cache.Some? {
      HeldStaysHeld(world.rows, Version(config, world.now), world.cache.value.config, world.cache.value.fetchedAt);
    }
  }

  lemma StoreKeepsHonest(world: World, reader: nat, works: bool)
    requires Honest(world)
    ensures Honest(Next(world, Store(reader, works)))
  {
    if reader in world.readings {
      var read := world.readings[reader];
      assert HeldAt(world.rows, read.index, read.config, read.at);
    }
  }

  lemma StepKeepsHonest(world: World, event: Event)
    requires Honest(world)
    ensures Honest(Next(world, event))
  {
    match event
    case Flush(config) => FlushKeepsHonest(world, config);
    case Store(reader, works) => StoreKeepsHonest(world, reader, works);
    case _ =>
  }

  lemma {:induction false} EveryRunIsHonest(events: seq<Event>)
    ensures Honest(After(events))
  {
    if events != [] {
      EveryRunIsHonest(events[..|events| - 1]);
      StepKeepsHonest(After(events[..|events| - 1]), events[|events| - 1]);
    }
  }

  /** How long the reader behind this answer had held its value back. */
  function Delay(world: World, event: Event): int
    requires Answer(world, event).Some?
  {
    if event.Hit? then world.cache.value.storedAt - world.cache.value.fetchedAt
    else world.now - world.readings[event.reader].at
  }

  /** In every interleaving, with stores and deletes failing at will: an answer is a value the row held less than the
      lifetime plus the reader's own delay ago. */
  lemma AnswersWereTrueRecently(events: seq<Event>, event: Event)
    requires Answer(After(events), event).Some?
    ensures var world := After(events);
            exists time: nat ::
              && ReallyHeld(world.rows, Answer(world, event).value, time)
              && time <= world.now < time + TTL_MS + Delay(world, event)
  {
    EveryRunIsHonest(events);
    var world := After(events);
    var time := if event.Hit? then world.cache.value.fetchedAt else world.readings[event.reader].at;
    assert ReallyHeld(world.rows, Answer(world, event).value, time) by {
      if event.Store? {
        var read := world.readings[event.reader];
        assert HeldAt(world.rows, read.index, read.config, read.at);
      }
    }
  }

  /** So even a lost delete heals: once a row has been left alone for the lifetime plus the delay, every answer is
      its present value. */
  lemma QuietRowsAnswerTruly(events: seq<Event>, event: Event)
    requires Answer(After(events), event).Some?
    ensures var world := After(events);
            && world.rows != []
            && var last := world.rows[|world.rows| - 1];
            last.from + TTL_MS + Delay(world, event) <= world.now ==> Answer(world, event).value == last.config
  {
    EveryRunIsHonest(events);
    AnswersWereTrueRecently(events, event);
    var world := After(events);
    var time: nat :| ReallyHeld(world.rows, Answer(world, event).value, time)
        && time <= world.now < time + TTL_MS + Delay(world, event);
    var i :| HeldAt(world.rows, i, Answer(world, event).value, time);
    assert i + 1 < |world.rows| ==> world.rows[i + 1].from <= world.rows[|world.rows| - 1].from;
  }

  // ----------------------------------------------------------------- agreement at rest

  /** With no writer between flush and delete, a live entry is the present row. */
  predicate AgreesAtRest(world: World) {
    world.pending == {} && Live(world) ==>
      world.rows != [] && world.cache.value.config == world.rows[|world.rows| - 1].config
  }

  ghost predicate AlwaysAgrees(events: seq<Event>) {
    AgreesAtRest(After(events)) && (events != [] ==> AlwaysAgrees(events[..|events| - 1]))
  }

  /** A step that leaves a wrong entry with nobody about to delete it: a store at rest of a value since replaced, or
      the last outstanding delete failing over an entry that is wrong. */
  predicate Harmful(world: World, event: Event) {
    match event
    case Store(reader, works) =>
      && works && reader in world.readings && world.pending == {}
      && (world.rows != [] ==> world.readings[reader].config != world.rows[|world.rows| - 1].config)
    case Delete(writer, works) =>
      && !works && world.pending == {writer} && Live(world)
      && (world.rows != [] ==> world.cache.value.config != world.rows[|world.rows| - 1].config)
    case _ => false
  }

  ghost predicate Harmless(events: seq<Event>) {
    events != [] ==> !Harmful(After(events[..|events| - 1]), events[|events| - 1]) && Harmless(events[..|events| - 1])
  }

  lemma StepDecidesAgreement(world: World, event: Event)
    requires AgreesAtRest(world)
    ensures AgreesAtRest(Next(world, event)) <==> !Harmful(world, event)
  {
    match event
    case Delete(writer, works) =>
      if writer in world.pending {
        assert world.pending - {writer} == {} <==> world.pending == {writer};
      }
    case _ =>
  }

  /** A run keeps the cache in agreement at every point of rest exactly when none of its steps is harmful. */
  lemma {:induction false} AgreementIffHarmless(events: seq<Event>)
    ensures AlwaysAgrees(events) <==> Harmless(events)
  {
    if events != [] {
      AgreementIffHarmless(events[..|events| - 1]);
      if AlwaysAgrees(events[..|events| - 1]) {
        StepDecidesAgreement(After(events[..|events| - 1]), events[|events| - 1]);
      }
    }
  }

  /** The reader's window holds a whole write: flushed after its fetch, deleted before its store. */
  ghost predicate Straddles(world: World, reader: nat) {
    reader in world.readings && exists i :: world.readings[reader].index < i < |world.rows| && i !in world.pending
  }

  ghost predicate NoStoreStraddles(events: seq<Event>) {
    events != [] ==>
      var world, event := After(events[..|events| - 1]), events[|events| - 1];
      && (event.Store? && event.works ==> !Straddles(world, event.reader))
      && (event.Delete? ==> event.works)
      && NoStoreStraddles(events[..|events| - 1])
  }

  /** If deletes work and no reader's fetch-to-store window holds a whole write, the cache agrees at every point of
      rest. */
  lemma WithoutStraddlingCacheAgrees(events: seq<Event>)
    requires NoStoreStraddles(events)
    ensures AlwaysAgrees(events)
  {
    HarmlessWithoutStraddling(events);
    AgreementIffHarmless(events);
  }

  lemma {:induction false} HarmlessWithoutStraddling(events: seq<Event>)
    requires NoStoreStraddles(events)
    ensures Harmless(events)
  {
    if events != [] {
      var shorter, event := events[..|events| - 1], events[|events| - 1];
      HarmlessWithoutStraddling(shorter);
      EveryRunIsHonest(shorter);
      var world := After(shorter);
      if event.Store? && event.works && event.reader in world.readings && world.pending == {} {
        var read := world.readings[event.reader];
        assert HeldAt(world.rows, read.index, read.config, read.at);
        assert |world.rows| - 1 !in world.pending;
      }
    }
  }

  /** One straddling reader is enough: it puts the replaced value back, and every hit for the next hour answers it. */
  lemma StraddlingReaderLies(was: Config, next: Config)
    requires was != next
    ensures exists events ::
              var world := After(events);
              && world.pending == {} && |world.rows| == 2 && world.rows[1].config == next
              && forall ms: nat :: ms < TTL_MS ==> Answer(Next(world, Elapse(ms)), Hit) == Some(was)
  {
    var flush1, fetch, flush2 := Flush(was), Fetch(7), Flush(next);
    var delete1, delete2, store := Delete(0, true), Delete(1, true), Store(7, true);
    SixSteps(flush1, fetch, flush2, delete1, delete2, store);
    var read, rows := map[7 := Reading(0, was, 0)], [Version(was, 0), Version(next, 0)];
    assert Next(Next(EMPTY, flush1), fetch) == World(0, rows[..1], None, read, {0});
    assert Next(World(0, rows[..1], None, read, {0}), flush2) == World(0, rows, None, read, {0, 1});
    var world := After([flush1, fetch, flush2, delete1, delete2, store]);
    assert world.cache == Some(Entry(was, 0, 0)) && world.rows == rows;
  }

  lemma SixSteps(a: Event, b: Event, c: Event, d: Event, e: Event, f: Event)
    ensures After([a, b, c, d, e, f]) == Next(Next(Next(Next(Next(Next(EMPTY, a), b), c), d), e), f)
  {
    var events := [a, b, c, d, e, f];
    Unfold(events, 0); Unfold(events, 1); Unfold(events, 2); Unfold(events, 3); Unfold(events, 4); Unfold(events, 5);
    assert events[..6] == events;
  }

  lemma Unfold(events: seq<Event>, k: nat)
    requires k < |events|
    ensures After(events[..k + 1]) == Next(After(events[..k]), events[k])
  {
    assert events[..k + 1][..k] == events[..k];
  }
}
