/** The signed routing snapshot of one tenant and its generation counter
    (libs/kernel/tenant/src/lib/routing-plane.service.ts). */
module RoutingPlane {
  import opened Wrappers

  type Region = string
  type Endpoints = map<string, string>

  datatype TenantStatus = Active | Suspended | Provisioning | Degraded | LegalHold | Archived | Purged

  /** The row of `tenant_control_records`; `version` is the ORM's optimistic-lock column. */
  datatype Control = Control(
    status: TenantStatus, primaryRegion: Region, secondaryRegion: Region,
    isFrozen: bool, fenceGeneration: nat, writeFenceToken: Option<string>, version: nat)

  datatype Targets = Targets(
    primaryRegion: Region, secondaryRegion: Region, failoverActive: bool, serviceEndpoints: Endpoints)

  /** The HMAC as a symbolic term: equal exactly when secret and signed fields are equal. */
  datatype Mac = Mac(secret: string, generation: nat, targets: Targets, expiresAt: nat, issuedAt: nat)

  datatype Snapshot = Snapshot(generation: nat, targets: Targets, expiresAt: nat, issuedAt: nat, signature: Mac)

  const SNAPSHOT_LIFETIME_MS: nat := 86_400_000

  function Generation(snapshot: Option<Snapshot>): nat {
    if snapshot.None? then 0 else snapshot.value.generation
  }

  predicate IsExpired(snapshot: Snapshot, now: nat) {
    snapshot.expiresAt < now
  }

  predicate Verifies(snapshot: Snapshot, secret: string) {
    snapshot.signature == Mac(secret, snapshot.generation, snapshot.targets, snapshot.expiresAt, snapshot.issuedAt)
  }

  function NextSnapshot(existing: Option<Snapshot>, targets: Targets, now: nat, secret: string): Snapshot {
    var generation := Generation(existing) + 1;
    var expiresAt := now + SNAPSHOT_LIFETIME_MS;
    Snapshot(generation, targets, expiresAt, now, Mac(secret, generation, targets, expiresAt, now))
  }

  predicate PassesFence(existing: Option<Snapshot>, expectedGeneration: Option<nat>) {
    expectedGeneration.None? || expectedGeneration.value == Generation(existing)
  }

  /** A writer that found no row inserts one, which fails if there is one by now. */
  predicate CanWrite(existing: Option<Snapshot>, stored: Option<Snapshot>) {
    existing.Some? || stored.None?
  }

  /** The region a tenant is served from according to its control record. */
  function RoutedRegion(control: Control): Region {
    if control.status == Degraded then control.secondaryRegion else control.primaryRegion
  }

  function StandbyRegion(control: Control): Region {
    if control.status == Degraded then control.primaryRegion else control.secondaryRegion
  }

  function PolicyTargets(control: Control, endpoints: Endpoints): Targets {
    Targets(RoutedRegion(control), StandbyRegion(control), control.status == Degraded, endpoints)
  }

  datatype ProxyRequest = ProxyRequest(
    service: string, requestedTarget: string, generation: Option<nat>, signature: Option<Mac>)

  datatype ProxyError = NoValidSnapshot | ServiceNotAllowed | GenerationFence | SignatureMismatch | TargetDeviates
  datatype ProxyResult = Routed(target: string, generation: nat, signature: Mac) | Refused(error: ProxyError)

  /** The checks of `enforceProxyRoute`, in order; an absent or zero generation is not compared. */
  function Enforce(snapshot: Option<Snapshot>, request: ProxyRequest, now: nat, secret: string): ProxyResult {
    if snapshot.None? || !Verifies(snapshot.value, secret) then Refused(NoValidSnapshot)
    else if IsExpired(snapshot.value, now) then Refused(NoValidSnapshot)
    else
      var current := snapshot.value;
      var endpoints := current.targets.serviceEndpoints;
      if request.service !in endpoints || endpoints[request.service] == "" then Refused(ServiceNotAllowed)
      else if request.generation.Some? && request.generation.value != 0
          && request.generation.value != current.generation
      then Refused(GenerationFence)
      else if request.signature.Some? && request.signature.value != current.signature then Refused(SignatureMismatch)
      else if endpoints[request.service] != request.requestedTarget then Refused(TargetDeviates)
      else Routed(endpoints[request.service], current.generation, current.signature)
  }

  /** The service over one stored row; `now` is the clock it reads. */
  class RoutingPlaneService {
    const secret: string
    var stored: Option<Snapshot>
    var now: nat

    constructor (secret: string)
      ensures this.secret == secret && stored == None && now == 0
    {
      this.secret := secret;
      stored, now := None, 0;
    }

    method CreateSnapshot(targets: Targets, expectedGeneration: Option<nat>) returns (published: bool)
      modifies this`stored
      ensures published == PassesFence(old(stored), expectedGeneration)
      ensures stored == if published then Some(NextSnapshot(old(stored), targets, now, secret)) else old(stored)
    {
      var existing := stored;
      if expectedGeneration.Some? {
        var found := if existing.Some? then existing.value.generation else 0;
        if found != expectedGeneration.value { return false; }
      }
      var generation := if existing.Some? then existing.value.generation + 1 else 1;
      var expiresAt := now + SNAPSHOT_LIFETIME_MS;
      stored := Some(Snapshot(generation, targets, expiresAt, now, Mac(secret, generation, targets, expiresAt, now)));
      return true;
    }

    /** None is the exception for a tampered row or for a policy evaluation that lacks a signal. */
    method ResolveRoute(control: Control, endpoints: Option<Endpoints>) returns (route: Option<Targets>)
      modifies this`stored
      ensures (stored, route) == Resolve(old(stored), control, endpoints, now, secret)
    {
      if stored.Some? {
        if !Verifies(stored.value, secret) { return None; }
        if !IsExpired(stored.value, now) { return Some(stored.value.targets); }
      }
      if endpoints.None? { return None; }
      var primary := if control.status == Degraded then control.secondaryRegion else control.primaryRegion;
      var secondary := if control.status == Degraded then control.primaryRegion else control.secondaryRegion;
      var targets := Targets(primary, secondary, control.status == Degraded, endpoints.value);
      var published := CreateSnapshot(targets, None);
      return Some(targets);
    }

    method EnforceProxyRoute(request: ProxyRequest) returns (result: ProxyResult)
      ensures result == Enforce(stored, request, now, secret)
    {
      if stored.None? || !Verifies(stored.value, secret) || IsExpired(stored.value, now) {
        return Refused(NoValidSnapshot);
      }
      var endpoints := stored.value.targets.serviceEndpoints;
      if request.service !in endpoints || endpoints[request.service] == "" { return Refused(ServiceNotAllowed); }
      if request.generation.Some? && request.generation.value != 0
          && request.generation.value != stored.value.generation {
        return Refused(GenerationFence);
      }
      if request.signature.Some? && request.signature.value != stored.value.signature {
        return Refused(SignatureMismatch);
      }
      if endpoints[request.service] != request.requestedTarget { return Refused(TargetDeviates); }
      return Routed(endpoints[request.service], stored.value.generation, stored.value.signature);
    }
  }

  /** `resolveRoute` as one atomic step: an unexpired snapshot answers, otherwise the policies are evaluated and
      published unfenced. */
  function Resolve(stored: Option<Snapshot>, control: Control, endpoints: Option<Endpoints>, now: nat, secret: string)
    : (Option<Snapshot>, Option<Targets>)
  {
    if stored.Some? && !Verifies(stored.value, secret) then (stored, None)
    else if stored.Some? && !IsExpired(stored.value, now) then (stored, Some(stored.value.targets))
    else if endpoints.None? then (stored, None)
    else
      var targets := PolicyTargets(control, endpoints.value);
      (Some(NextSnapshot(stored, targets, now, secret)), Some(targets))
  }

  // ----- what is published and what is routed -----

  /** There is a row, it is as it was signed, and its day is not over. */
  predicate IsInForce(stored: Option<Snapshot>, now: nat, secret: string) {
    stored.Some? && Verifies(stored.value, secret) && now <= stored.value.expiresAt
  }

  /** What the policies ask for: a DEGRADED tenant's regions change places, the endpoints are those of its
      configuration. */
  predicate FollowsPolicy(route: Targets, control: Control, endpoints: Endpoints) {
    && route.serviceEndpoints == endpoints
    && (route.failoverActive <==> control.status == Degraded)
    && if control.status == Degraded
       then route.primaryRegion == control.secondaryRegion && route.secondaryRegion == control.primaryRegion
       else route.primaryRegion == control.primaryRegion && route.secondaryRegion == control.secondaryRegion
  }

  /** An evaluated route is published: without a current row and with endpoints, the answer is what the policies ask
      for, and the row holds it for a day, signed, one generation above the old one. */
  lemma EvaluatedRouteIsPublished(stored: Option<Snapshot>, control: Control, endpoints: Endpoints, now: nat,
                                  secret: string)
    requires !IsInForce(stored, now, secret) && (stored.Some? ==> Verifies(stored.value, secret))
    ensures var (after, route) := Resolve(stored, control, Some(endpoints), now, secret);
      && route.Some? && FollowsPolicy(route.value, control, endpoints)
      && after.Some? && after.value.targets == route.value
      && after.value.generation == Generation(stored) + 1 && after.value.issuedAt == now
      && forall time: nat :: IsInForce(after, time, secret) <==> time <= now + 86_400_000
  {
    var after := Resolve(stored, control, Some(endpoints), now, secret).0;
    assert forall time: nat :: IsInForce(after, time, secret) <==> time <= now + 86_400_000;
  }

  /** A current row answers for itself and stays; a row that does not verify is never answered from, nor replaced;
      and without a current row nothing is answered unless there are endpoints. */
  lemma ResolveAnswersIff(stored: Option<Snapshot>, control: Control, endpoints: Option<Endpoints>, now: nat,
                          secret: string)
    ensures var (after, route) := Resolve(stored, control, endpoints, now, secret);
      && (route.Some? <==>
            IsInForce(stored, now, secret) || (endpoints.Some? && (stored.Some? ==> Verifies(stored.value, secret))))
      && (IsInForce(stored, now, secret) ==> route == Some(stored.value.targets))
      && (after != stored ==> route.Some? && !IsInForce(stored, now, secret))
  {
  }

  /** The row names a non-empty endpoint for the service. */
  ghost predicate Serves(stored: Option<Snapshot>, service: string) {
    exists url :: HasEndpoint(stored, service, url)
  }

  predicate HasEndpoint(stored: Option<Snapshot>, service: string, url: string) {
    && stored.Some? && service in stored.value.targets.serviceEndpoints
    && stored.value.targets.serviceEndpoints[service] == url && url != ""
  }

  predicate GenerationAgrees(stored: Option<Snapshot>, request: ProxyRequest) {
    request.generation.None? || request.generation.value == 0 || request.generation.value == Generation(stored)
  }

  predicate SignatureAgrees(stored: Option<Snapshot>, request: ProxyRequest) {
    request.signature.Some? ==> stored.Some? && request.signature.value == stored.value.signature
  }

  /** A request is routed exactly when the row is current, the service's endpoint is the requested target, and what
      the request presents of generation and signature is the row's; then it goes to that endpoint, under the row's
      generation and signature. */
  lemma RoutedIff(stored: Option<Snapshot>, request: ProxyRequest, now: nat, secret: string)
    ensures var result := Enforce(stored, request, now, secret);
      && (result.Routed? <==>
            && IsInForce(stored, now, secret) && HasEndpoint(stored, request.service, request.requestedTarget)
            && GenerationAgrees(stored, request) && SignatureAgrees(stored, request))
      && (result.Routed? ==>
            result == Routed(request.requestedTarget, Generation(stored), stored.value.signature))
  {
  }

  /** Which refusal a request gets: the first of the demands it does not meet, in this order. */
  lemma RefusedForFirstReason(stored: Option<Snapshot>, request: ProxyRequest, now: nat, secret: string)
    ensures var result := Enforce(stored, request, now, secret);
      && (result == Refused(NoValidSnapshot) <==> !IsInForce(stored, now, secret))
      && (result == Refused(ServiceNotAllowed) <==> IsInForce(stored, now, secret) && !Serves(stored, request.service))
      && (result == Refused(GenerationFence) ==> !GenerationAgrees(stored, request))
      && (result == Refused(SignatureMismatch) ==>
            GenerationAgrees(stored, request) && !SignatureAgrees(stored, request))
      && (result == Refused(TargetDeviates) ==>
            && GenerationAgrees(stored, request) && SignatureAgrees(stored, request)
            && !HasEndpoint(stored, request.service, request.requestedTarget))
  {
    if stored.Some? && request.service in stored.value.targets.serviceEndpoints {
      var url := stored.value.targets.serviceEndpoints[request.service];
      if url == "" {
        assert forall other :: !HasEndpoint(stored, request.service, other);
      } else {
        assert HasEndpoint(stored, request.service, url);
      }
    }
  }

  /** The round trip: whatever non-empty endpoint an evaluated answer names, a request for it in the next day is
      routed there. */
  lemma EvaluatedRouteIsRouted(stored: Option<Snapshot>, control: Control, endpoints: Endpoints, now: nat,
                               secret: string,
                               service: string, later: nat)
    requires !IsInForce(stored, now, secret) && (stored.Some? ==> Verifies(stored.value, secret))
    requires service in endpoints && endpoints[service] != "" && later <= now + 86_400_000
    ensures var after := Resolve(stored, control, Some(endpoints), now, secret).0;
            var plain := ProxyRequest(service, endpoints[service], None, None);
            var bound := ProxyRequest(service, endpoints[service], Some(Generation(stored) + 1),
                                      Some(after.value.signature));
      && after.Some?
      && Enforce(after, plain, later, secret) == Enforce(after, bound, later, secret)
         == Routed(endpoints[service], Generation(stored) + 1, after.value.signature)
  {
    var after := Resolve(stored, control, Some(endpoints), now, secret).0;
    EvaluatedRouteIsPublished(stored, control, endpoints, now, secret);
    assert IsInForce(after, later, secret);
  }

  // ----- whole runs with atomic writes -----

  datatype Plane = Plane(stored: Option<Snapshot>, now: nat, writes: nat)

  datatype Event =
    | Publish(targets: Targets, expectedGeneration: Option<nat>)
    | ResolveEvent(control: Control, endpoints: Option<Endpoints>)
    | Elapse(ms: nat)

  function Apply(plane: Plane, event: Event, secret: string): Plane {
    match event
    case Publish(targets, expected) =>
      if PassesFence(plane.stored, expected)
      then Plane(Some(NextSnapshot(plane.stored, targets, plane.now, secret)), plane.now, plane.writes + 1)
      else plane
    case ResolveEvent(control, endpoints) =>
      var (stored, _) := Resolve(plane.stored, control, endpoints, plane.now, secret);
      Plane(stored, plane.now, if stored == plane.stored then plane.writes else plane.writes + 1)
    case Elapse(ms) => plane.(now := plane.now + ms)
  }

  function ApplyAll(plane: Plane, events: seq<Event>, secret: string): Plane {
    if events == [] then plane
    else Apply(ApplyAll(plane, events[..|events| - 1], secret), events[|events| - 1], secret)
  }

  /** From an empty row, whatever is published, resolved or refused: the generation counts the writes
      and the stored snapshot verifies. */
  lemma {:induction false} GenerationCountsWrites(events: seq<Event>, start: nat, secret: string)
    ensures var plane := ApplyAll(Plane(None, start, 0), events, secret);
      Generation(plane.stored) == plane.writes && (plane.stored.Some? ==> Verifies(plane.stored.value, secret))
  {
    if events != [] { GenerationCountsWrites(events[..|events| - 1], start, secret); }
  }

  lemma {:induction false} GenerationNeverFalls(plane: Plane, events: seq<Event>, secret: string)
    ensures Generation(ApplyAll(plane, events, secret).stored) >= Generation(plane.stored)
    ensures ApplyAll(plane, events, secret).now >= plane.now
  {
    if events != [] { GenerationNeverFalls(plane, events[..|events| - 1], secret); }
  }

  /** Once generation g is superseded, no later request that presents g is routed; and whatever is routed
      is the endpoint of the current, unexpired snapshot. */
  lemma StaleRoutesStayDead(plane: Plane, events: seq<Event>, request: ProxyRequest, secret: string)
    ensures var later := ApplyAll(plane, events, secret);
      var result := Enforce(later.stored, request, later.now, secret);
      && (request.generation.Some? && 0 < request.generation.value < Generation(plane.stored) ==> result.Refused?)
      && (result.Routed? ==>
            && later.stored.Some? && later.now <= later.stored.value.expiresAt
            && request.service in later.stored.value.targets.serviceEndpoints
            && result.target == later.stored.value.targets.serviceEndpoints[request.service] == request.requestedTarget
            && result.generation == Generation(later.stored) >= Generation(plane.stored))
  {
    GenerationNeverFalls(plane, events, secret);
  }

  /** A signature opens nothing but the very snapshot it was made for: a request that presents a superseded one, or
      any that is not the stored one's, is refused. */
  lemma StaleSignaturesStayDead(events: seq<Event>, more: seq<Event>, start: nat, request: ProxyRequest, secret: string)
    ensures var before := ApplyAll(Plane(None, start, 0), events, secret);
            var later := ApplyAll(Plane(None, start, 0), events + more, secret);
            var result := Enforce(later.stored, request, later.now, secret);
      && (before.stored.Some? && request.signature == Some(before.stored.value.signature) && result.Routed? ==>
            later.stored == before.stored && later.writes == before.writes)
      && (result.Routed? && request.signature.Some? ==>
            later.stored.Some? && request.signature.value == later.stored.value.signature == result.signature)
  {
    var before := ApplyAll(Plane(None, start, 0), events, secret);
    var later := ApplyAll(Plane(None, start, 0), events + more, secret);
    GenerationCountsWrites(events, start, secret);
    GenerationCountsWrites(events + more, start, secret);
    RoutedIff(later.stored, request, later.now, secret);
  }

  // ----- writers whose read and write are separate steps -----

  /** What a writer read: the row and how many writes preceded the read. */
  datatype Reading = Reading(existing: Option<Snapshot>, writesBefore: nat)
  datatype Race = Race(stored: Option<Snapshot>, writes: nat, readings: map<nat, Reading>)
  datatype RaceStep = Read(writer: nat) | Write(writer: nat, targets: Targets, now: nat)

  function RaceApply(race: Race, step: RaceStep, secret: string): Race {
    match step
    case Read(writer) => race.(readings := race.readings[writer := Reading(race.stored, race.writes)])
    case Write(writer, targets, now) =>
      if writer !in race.readings then race
      else if !CanWrite(race.readings[writer].existing, race.stored) then race.(readings := race.readings - {writer})
      else Race(Some(NextSnapshot(race.readings[writer].existing, targets, now, secret)), race.writes + 1,
                race.readings - {writer})
  }

  function RaceRun(race: Race, steps: seq<RaceStep>, secret: string): Race {
    if steps == [] then race
    else RaceApply(RaceRun(race, steps[..|steps| - 1], secret), steps[|steps| - 1], secret)
  }

  const NoRace := Race(None, 0, map[])

  predicate IsWrite(race: Race, step: RaceStep) {
    step.Write? && step.writer in race.readings && CanWrite(race.readings[step.writer].existing, race.stored)
  }

  /** No write lands between another writer's read and its write. */
  ghost predicate WritesAtomic(steps: seq<RaceStep>, secret: string) {
    steps == [] ||
    (&& WritesAtomic(steps[..|steps| - 1], secret)
     && var before := RaceRun(NoRace, steps[..|steps| - 1], secret);
        var step := steps[|steps| - 1];
        IsWrite(before, step) ==> before.readings[step.writer].writesBefore == before.writes)
  }

  ghost predicate GenerationsRise(steps: seq<RaceStep>, secret: string) {
    steps == [] ||
    (&& GenerationsRise(steps[..|steps| - 1], secret)
     && var before := RaceRun(NoRace, steps[..|steps| - 1], secret);
        var step := steps[|steps| - 1];
        IsWrite(before, step) ==>
          Generation(RaceApply(before, step, secret).stored) > Generation(before.stored))
  }

  /** While generations have only risen, they count the writes, also in what each writer has read. */
  lemma {:induction false} RisingCountsWrites(steps: seq<RaceStep>, secret: string)
    requires GenerationsRise(steps, secret)
    ensures WritesAtomic(steps, secret)
    ensures var race := RaceRun(NoRace, steps, secret);
      && Generation(race.stored) == race.writes
      && forall w :: w in race.readings ==>
           Generation(race.readings[w].existing) == race.readings[w].writesBefore <= race.writes
  {
    if steps != [] { RisingCountsWrites(steps[..|steps| - 1], secret); }
  }

  lemma {:induction false} AtomicCountsWrites(steps: seq<RaceStep>, secret: string)
    requires WritesAtomic(steps, secret)
    ensures GenerationsRise(steps, secret)
    ensures var race := RaceRun(NoRace, steps, secret);
      && Generation(race.stored) == race.writes
      && forall w :: w in race.readings ==>
           Generation(race.readings[w].existing) == race.readings[w].writesBefore <= race.writes
  {
    if steps != [] { AtomicCountsWrites(steps[..|steps| - 1], secret); }
  }

  /** With separate reads and writes, every write raises the generation exactly when no write lands between
      another writer's read and its write. */
  lemma GenerationsRiseIffAtomic(steps: seq<RaceStep>, secret: string)
    ensures GenerationsRise(steps, secret) <==> WritesAtomic(steps, secret)
  {
    if GenerationsRise(steps, secret) { RisingCountsWrites(steps, secret); }
    if WritesAtomic(steps, secret) { AtomicCountsWrites(steps, secret); }
  }

  /** A writer that found no row never replaces one: its insert fails, and the row stays. */
  lemma InsertReplacesNothing(race: Race, writer: nat, targets: Targets, now: nat, secret: string)
    requires writer in race.readings && race.readings[writer].existing.None?
    ensures var after := RaceApply(race, Write(writer, targets, now), secret);
      && writer !in after.readings
      && (race.stored.Some? ==> after.stored == race.stored && after.writes == race.writes)
      && (race.stored.None? ==> Generation(after.stored) == 1)
  {
  }

  /** A slow writer can bring a superseded generation back, and a request that presents it is routed again. */
  lemma SlowWriterRevivesDeadRoute(secret: string)
    ensures exists steps, k: nat, request: ProxyRequest ::
              && k < |steps| && request.generation == Some(2)
              && Generation(RaceRun(NoRace, steps[..k], secret).stored) == 3
              && Enforce(RaceRun(NoRace, steps, secret).stored, request, 0, secret).Routed?
  {
    var targets := Targets("a", "b", false, map["api" := "url"]);
    var s1, s2, s3, s4 := Read(0), Write(0, targets, 0), Read(1), Read(0);
    var s5, s6, s7, s8 := Write(0, targets, 0), Read(0), Write(0, targets, 0), Write(1, targets, 0);
    var steps := [s1, s2, s3, s4, s5, s6, s7, s8];
    var r1 := RaceApply(NoRace, s1, secret);
    var r2 := RaceApply(r1, s2, secret);
    var r3 := RaceApply(r2, s3, secret);
    var r4 := RaceApply(r3, s4, secret);
    var r5 := RaceApply(r4, s5, secret);
    var r6 := RaceApply(r5, s6, secret);
    var r7 := RaceApply(r6, s7, secret);
    RunPrefix(steps, 0, secret); RunPrefix(steps, 1, secret); RunPrefix(steps, 2, secret); RunPrefix(steps, 3, secret);
    RunPrefix(steps, 4, secret); RunPrefix(steps, 5, secret); RunPrefix(steps, 6, secret); RunPrefix(steps, 7, secret);
    assert steps[..8] == steps;
    assert RaceRun(NoRace, steps[..7], secret) == r7 && Generation(r7.stored) == 3;
    var request := ProxyRequest("api", "url", Some(2), None);
    assert Enforce(RaceRun(NoRace, steps, secret).stored, request, 0, secret).Routed?;
  }

  lemma RunPrefix(steps: seq<RaceStep>, k: nat, secret: string)
    requires k < |steps|
    ensures RaceRun(NoRace, steps[..k + 1], secret) == RaceApply(RaceRun(NoRace, steps[..k], secret), steps[k], secret)
    ensures k == 0 ==> RaceRun(NoRace, steps[..k], secret) == NoRace
  {
    assert steps[..k + 1][..k] == steps[..k];
  }
}
