/** The data audit log: one row per audited change set, written at flush
    (libs/kernel/audit/src/lib/subscribers/data-audit.subscriber.ts). Its rows form a forest, not a chain. */
module DataAuditLog {
  import opened Wrappers
  import opened DelimitedText
  import opened HashChain

  const LAYOUT := Layout(':', 6, 2, false, "genesis-audit-chain")

  datatype ChangeType = Create | Update | Delete | UpdateEarly | DeleteEarly

  /** A change set in the unit of work, whose entity may have no id yet; `masked` is its masked payload as JSON text. */
  datatype ChangeSet = ChangeSet(entityName: string, entityId: Option<string>, change: ChangeType, masked: string)

  /** A timestamp, as milliseconds and as its text cut at the two colons. */
  datatype Time = Time(ms: nat, hour: string, minute: string, second: string)

  datatype Log = Log(time: Time, entityType: string, entityId: string, operation: string, changes: string,
                     user: Option<string>, tenant: Option<string>)

  /** `id` is the rank of the row's random identifier in the database's order. */
  datatype Row = Row(log: Log, id: nat, previousHash: string, hash: Digest)

  function MapOperation(change: ChangeType): Option<string> {
    match change
    case Create => Some("INSERT")
    case Update => Some("UPDATE")
    case Delete => Some("DELETE")
    case _ => None
  }

  predicate IsAudited(change: ChangeSet) {
    && change.entityName != "DataAuditLog" && change.entityName != "OutboxEvent" && change.entityName != "InboxMessage"
    && MapOperation(change.change).Some?
  }

  function OrEmpty(text: Option<string>): string {
    if text.Some? then text.value else ""
  }

  function IdText(id: Option<string>): string {
    if id.Some? && id.value != "" then id.value else "pending"
  }

  function FieldsOf(log: Log): Fields {
    Fields([log.time.hour, log.time.minute, log.time.second, log.entityType, log.entityId, log.operation],
           log.changes, [OrEmpty(log.user), OrEmpty(log.tenant)])
  }

  lemma LeftSpelledOut(log: Log)
    ensures Before(':', FieldsOf(log).left) ==
            log.time.hour + ":" + log.time.minute + ":" + log.time.second + ":" + log.entityType + ":"
            + log.entityId + ":" + log.operation + ":"
  {
    var t := log.time;
    assert FieldsOf(log).left == [t.hour, t.minute, t.second, log.entityType] + [log.entityId, log.operation];
    BeforeOfConcat(':', [t.hour, t.minute, t.second, log.entityType], [log.entityId, log.operation]);
    BeforeFour(':', t.hour, t.minute, t.second, log.entityType);
    BeforeTwo(':', log.entityId, log.operation);
  }

  lemma RightSpelledOut(log: Log, previousHash: string)
    ensures Behind(':', FieldsOf(log).right + [previousHash]) ==
            ":" + OrEmpty(log.user) + ":" + OrEmpty(log.tenant) + ":" + previousHash
  {
    BehindOfConcat(':', [OrEmpty(log.user), OrEmpty(log.tenant)], [previousHash]);
    BehindTwo(':', OrEmpty(log.user), OrEmpty(log.tenant));
    BehindOne(':', previousHash);
  }

  /** The hashed string, spelled out: timestamp, entity, its id, operation, changes, user, tenant, previous hash. */
  lemma SpelledOut(log: Log, previousHash: string)
    ensures Content(LAYOUT, FieldsOf(log), previousHash) ==
            (log.time.hour + ":" + log.time.minute + ":" + log.time.second + ":" + log.entityType + ":"
             + log.entityId + ":" + log.operation + ":")
            + log.changes + (":" + (if log.user.Some? then log.user.value else "") + ":"
                             + (if log.tenant.Some? then log.tenant.value else "") + ":" + previousHash)
  {
    LeftSpelledOut(log);
    RightSpelledOut(log, previousHash);
  }

  /** The tenant the last hash is looked up for. The column stays null when there is no tenant, so these rows are
      never found. */
  function LookupKey(tenant: Option<string>): string {
    if tenant.Some? && tenant.value != "" then tenant.value else "system"
  }

  predicate Later(a: Row, b: Row) {
    a.log.time.ms > b.log.time.ms || (a.log.time.ms == b.log.time.ms && a.id > b.id)
  }

  /** `WHERE tenant_id = key ORDER BY timestamp DESC, id DESC LIMIT 1`. */
  function Latest(rows: seq<Row>, key: string): Option<Row> {
    if rows == [] then None
    else
      var best, row := Latest(rows[..|rows| - 1], key), rows[|rows| - 1];
      if row.log.tenant == Some(key) && (best.None? || Later(row, best.value)) then Some(row) else best
  }

  /** The row found is the tenant's newest, and among those of its millisecond the one with the greatest id. */
  lemma {:induction false} LatestIsNewest(rows: seq<Row>, key: string)
    ensures Latest(rows, key).None? <==> forall row :: row in rows ==> row.log.tenant != Some(key)
    ensures Latest(rows, key).Some? ==>
              var found := Latest(rows, key).value;
              && found in rows && found.log.tenant == Some(key)
              && forall row :: row in rows && row.log.tenant == Some(key) ==>
                   || row.log.time.ms < found.log.time.ms
                   || (row.log.time.ms == found.log.time.ms && row.id <= found.id)
  {
    if rows != [] {
      LatestIsNewest(rows[..|rows| - 1], key);
      assert forall row :: row in rows <==> row in rows[..|rows| - 1] || row == rows[|rows| - 1];
    }
  }

  function PreviousHash(rows: seq<Row>, tenant: Option<string>): string {
    var latest := Latest(rows, LookupKey(tenant));
    if latest.Some? then latest.value.hash else LAYOUT.genesis
  }

  /** The hash named is that of the newest row of the tenant, of "system" without one, or genesis. */
  lemma PreviousHashIsNewest(rows: seq<Row>, tenant: Option<string>)
    ensures var key := if tenant == None || tenant == Some("") then "system" else tenant.value;
      if forall row :: row in rows ==> row.log.tenant != Some(key)
      then PreviousHash(rows, tenant) == "genesis-audit-chain"
      else exists row :: row in rows && row.log.tenant == Some(key) && row.hash == PreviousHash(rows, tenant)
  {
    LatestIsNewest(rows, LookupKey(tenant));
  }

  function Seal(hash: string -> Digest, log: Log, id: nat, previousHash: string): Row {
    Row(log, id, previousHash, hash(Content(LAYOUT, FieldsOf(log), previousHash)))
  }

  /** Who flushes, and the moments and identifiers its rows get. */
  datatype Flush = Flush(user: Option<string>, tenant: Option<string>, times: nat -> Time, ids: nat -> nat)

  function LogOf(flush: Flush, change: ChangeSet, n: nat): Log
    requires IsAudited(change)
  {
    Log(flush.times(n), change.entityName, IdText(change.entityId), MapOperation(change.change).value, change.masked,
        flush.user, flush.tenant)
  }

  /** The rows one flush adds: every one of them is sealed onto what the table held before the flush. */
  function NewRows(hash: string -> Digest, rows: seq<Row>, flush: Flush, changes: seq<ChangeSet>): (r: seq<Row>)
    ensures |r| <= |changes|
  {
    if changes == [] then []
    else
      var earlier, change := NewRows(hash, rows, flush, changes[..|changes| - 1]), changes[|changes| - 1];
      if !IsAudited(change) then earlier
      else
        var n := |earlier|;
        earlier + [Seal(hash, LogOf(flush, change, n), flush.ids(n), PreviousHash(rows, flush.tenant))]
  }

  /** The changes that are logged, in their order: all that create, update or delete rows of other tables than the
      log's own and the two of messaging. */
  function Logged(changes: seq<ChangeSet>): seq<ChangeSet> {
    if changes == [] then []
    else
      var last := changes[|changes| - 1];
      var logs := && last.entityName !in {"DataAuditLog", "OutboxEvent", "InboxMessage"}
                  && last.change in {Create, Update, Delete};
      Logged(changes[..|changes| - 1]) + if logs then [last] else []
  }

  predicate Tells(log: Log, change: ChangeSet) {
    && log.entityType == change.entityName && log.changes == change.masked
    && log.entityId ==
         (if change.entityId == None || change.entityId == Some("") then "pending" else change.entityId.value)
    && match change.change
       case Create => log.operation == "INSERT"
       case Update => log.operation == "UPDATE"
       case Delete => log.operation == "DELETE"
       case _ => false
  }

  /** One flush logs each of them once, in their order, and nothing else: what happened to which entity, by whom and
      when. */
  lemma {:induction false} RowsTellChanges(hash: string -> Digest, rows: seq<Row>, flush: Flush,
                                           changes: seq<ChangeSet>)
    ensures var added, logged := NewRows(hash, rows, flush, changes), Logged(changes);
      && |added| == |logged|
      && forall k :: 0 <= k < |added| ==>
           && Tells(added[k].log, logged[k]) && added[k].id == flush.ids(k)
           && added[k].log.time == flush.times(k)
           && added[k].log.user == flush.user && added[k].log.tenant == flush.tenant
  {
    if changes != [] {
      RowsTellChanges(hash, rows, flush, changes[..|changes| - 1]);
      LastRowTells(hash, rows, flush, changes);
    }
  }

  lemma LastRowTells(hash: string -> Digest, rows: seq<Row>, flush: Flush, changes: seq<ChangeSet>)
    requires changes != []
    ensures var shorter, last := changes[..|changes| - 1], changes[|changes| - 1];
            var earlier, added := NewRows(hash, rows, flush, shorter), NewRows(hash, rows, flush, changes);
      if Logged(changes) == Logged(shorter) then added == earlier
      else && |added| == |earlier| + 1 && added[..|earlier|] == earlier && Logged(changes) == Logged(shorter) + [last]
           && var row := added[|earlier|];
              && Tells(row.log, last) && row.id == flush.ids(|earlier|) && row.log.time == flush.times(|earlier|)
              && row.log.user == flush.user && row.log.tenant == flush.tenant
  {
  }

  class DataAuditSubscriber {
    var rows: seq<Row>

    /** The logs are collected while looping over the change sets and persisted after the loop. Without a secret in
        production the first audited change throws, and nothing is persisted. */
    method OnFlush(hash: string -> Digest, flush: Flush, changes: seq<ChangeSet>, secretMissing: bool)
      returns (threw: bool)
      modifies this
      ensures threw <==> secretMissing && exists k :: 0 <= k < |changes| && IsAudited(changes[k])
      ensures rows == old(rows) + if threw then [] else NewRows(hash, old(rows), flush, changes)
      ensures old(Verified(hash, rows)) ==> Verified(hash, rows)
    {
      var logs: seq<Row> := [];
      for k := 0 to |changes|
        invariant rows == old(rows)
        invariant logs == NewRows(hash, rows, flush, changes[..k])
        invariant secretMissing ==> forall i :: 0 <= i < k ==> !IsAudited(changes[i])
      {
        assert changes[..k + 1][..k] == changes[..k];
        if IsAudited(changes[k]) {
          if secretMissing {
            assert rows + [] == rows;
            return true;
          }
          var n := |logs|;
          var previousHash := PreviousHash(rows, flush.tenant);
          logs := logs + [Seal(hash, LogOf(flush, changes[k], n), flush.ids(n), previousHash)];
        }
      }
      assert changes[..|changes|] == changes;
      rows := rows + logs;
      if old(Verified(hash, rows)) {
        FlushKeepsVerified(hash, old(rows), flush, changes);
      }
      return false;
    }
  }

  // ----------------------------------------------------------------- a forest

  /** Row `j` is where row `k` hangs: earlier, of the tenant that was looked up, and of the hash row `k` names. */
  predicate Hangs(rows: seq<Row>, j: int, k: int) {
    && 0 <= j < k < |rows|
    && rows[j].log.tenant == Some(LookupKey(rows[k].log.tenant))
    && rows[j].hash == rows[k].previousHash
  }

  /** What an auditor can check row by row: the hash is right, and the predecessor it names is genesis or an earlier
      row. */
  ghost predicate VerifiedRow(hash: string -> Digest, rows: seq<Row>, k: int)
    requires 0 <= k < |rows|
  {
    && rows[k].hash == hash(Content(LAYOUT, FieldsOf(rows[k].log), rows[k].previousHash))
    && (rows[k].previousHash == LAYOUT.genesis || exists j :: Hangs(rows, j, k))
  }

  ghost predicate Verified(hash: string -> Digest, rows: seq<Row>) {
    forall k :: 0 <= k < |rows| ==> VerifiedRow(hash, rows, k)
  }

  lemma {:induction false} LatestIsThere(rows: seq<Row>, key: string)
    ensures Latest(rows, key).Some? <==> exists j :: 0 <= j < |rows| && rows[j].log.tenant == Some(key)
    ensures Latest(rows, key).Some? ==>
        exists j :: 0 <= j < |rows| && rows[j] == Latest(rows, key).value && rows[j].log.tenant == Some(key)
  {
    if rows != [] {
      var front := rows[..|rows| - 1];
      LatestIsThere(front, key);
      assert forall j :: 0 <= j < |front| ==> front[j] == rows[j];
    }
  }

  lemma {:induction false} SiblingsSharePredecessor(hash: string -> Digest, rows: seq<Row>, flush: Flush,
                                                    changes: seq<ChangeSet>)
    ensures forall k :: 0 <= k < |NewRows(hash, rows, flush, changes)| ==>
              var row := NewRows(hash, rows, flush, changes)[k];
              && row.previousHash == PreviousHash(rows, flush.tenant)
              && row.log.tenant == flush.tenant && row.log.user == flush.user
              && row.hash == hash(Content(LAYOUT, FieldsOf(row.log), row.previousHash))
  {
    if changes != [] {
      SiblingsSharePredecessor(hash, rows, flush, changes[..|changes| - 1]);
    }
  }

  /** Every flush keeps the forest. */
  lemma FlushKeepsVerified(hash: string -> Digest, rows: seq<Row>, flush: Flush, changes: seq<ChangeSet>)
    requires Verified(hash, rows)
    ensures Verified(hash, rows + NewRows(hash, rows, flush, changes))
  {
    var added := NewRows(hash, rows, flush, changes);
    var more := rows + added;
    SiblingsSharePredecessor(hash, rows, flush, changes);
    LatestIsThere(rows, LookupKey(flush.tenant));
    forall k | 0 <= k < |more| ensures VerifiedRow(hash, more, k) {
      if k < |rows| {
        OldRowStaysVerified(hash, rows, added, k);
      } else {
        assert more[k] == added[k - |rows|];
        if PreviousHash(rows, flush.tenant) != LAYOUT.genesis {
          var j :| 0 <= j < |rows| && rows[j] == Latest(rows, LookupKey(flush.tenant)).value
                   && rows[j].log.tenant == Some(LookupKey(flush.tenant));
          assert Hangs(more, j, k);
        }
      }
    }
  }

  lemma OldRowStaysVerified(hash: string -> Digest, rows: seq<Row>, extra: seq<Row>, k: nat)
    requires k < |rows| && VerifiedRow(hash, rows, k)
    ensures VerifiedRow(hash, rows + extra, k)
  {
    if rows[k].previousHash != LAYOUT.genesis {
      var j :| Hangs(rows, j, k);
      assert Hangs(rows + extra, j, k);
    }
  }

  // ----------------------------------------------------------------- flushes interleaved

  /** Flushes whose rows are sealed, each onto what its own lookup found, and not persisted yet. */
  datatype World = World(rows: seq<Row>, open: map<nat, seq<Row>>)

  datatype Event = Audit(id: nat, flush: Flush, change: ChangeSet) | Persist(id: nat)

  function Pending(world: World, id: nat): seq<Row> {
    if id in world.open then world.open[id] else []
  }

  function Next(hash: string -> Digest, world: World, event: Event): World {
    match event
    case Audit(id, flush, change) =>
      if !IsAudited(change) then world
      else
        var n := |Pending(world, id)|;
        var row := Seal(hash, LogOf(flush, change, n), flush.ids(n), PreviousHash(world.rows, flush.tenant));
        world.(open := world.open[id := Pending(world, id) + [row]])
    case Persist(id) =>
      if id !in world.open then world else World(world.rows + world.open[id], world.open - {id})
  }

  function After(hash: string -> Digest, events: seq<Event>): World {
    if events == [] then World([], map[]) else Next(hash, After(hash, events[..|events| - 1]), events[|events| - 1])
  }

  /** The lookups of one flush, change by change. */
  function AuditAll(hash: string -> Digest, world: World, id: nat, flush: Flush, changes: seq<ChangeSet>): World {
    if changes == [] then world
    else
      Next(hash, AuditAll(hash, world, id, flush, changes[..|changes| - 1]), Audit(id, flush, changes[|changes| - 1]))
  }

  /** Undisturbed, the events of a flush are the whole flush. */
  lemma {:induction false} UndisturbedFlush(hash: string -> Digest, world: World, id: nat, flush: Flush,
                                            changes: seq<ChangeSet>)
    requires id !in world.open
    ensures var audited := AuditAll(hash, world, id, flush, changes);
            var added := NewRows(hash, world.rows, flush, changes);
      && audited.rows == world.rows && Pending(audited, id) == added
      && Next(hash, audited, Persist(id)).rows == world.rows + added
      && Next(hash, audited, Persist(id)).open - {id} == world.open
  {
    if changes != [] { UndisturbedFlush(hash, world, id, flush, changes[..|changes| - 1]); }
    var added := NewRows(hash, world.rows, flush, changes);
    assert added == [] ==> world.rows + added == world.rows;
  }

  predicate IsFoundBy(row: Row, found: Row) {
    found.log.tenant == Some(LookupKey(row.log.tenant)) && found.hash == row.previousHash
  }

  /** A row that may be appended to these rows. */
  ghost predicate Appendable(hash: string -> Digest, rows: seq<Row>, row: Row) {
    && row.hash == hash(Content(LAYOUT, FieldsOf(row.log), row.previousHash))
    && (row.previousHash == LAYOUT.genesis || exists j :: 0 <= j < |rows| && IsFoundBy(row, rows[j]))
  }

  ghost predicate AllAppendable(hash: string -> Digest, rows: seq<Row>, pending: seq<Row>) {
    forall k :: 0 <= k < |pending| ==> Appendable(hash, rows, pending[k])
  }

  lemma AppendableStays(hash: string -> Digest, rows: seq<Row>, more: seq<Row>, pending: seq<Row>)
    requires AllAppendable(hash, rows, pending)
    ensures AllAppendable(hash, rows + more, pending)
  {
    forall k | 0 <= k < |pending| ensures Appendable(hash, rows + more, pending[k]) {
      assert Appendable(hash, rows, pending[k]);
      if pending[k].previousHash != LAYOUT.genesis {
        var j :| 0 <= j < |rows| && IsFoundBy(pending[k], rows[j]);
        assert IsFoundBy(pending[k], (rows + more)[j]);
      }
    }
  }

  lemma AppendingKeepsVerified(hash: string -> Digest, rows: seq<Row>, pending: seq<Row>)
    requires Verified(hash, rows) && AllAppendable(hash, rows, pending)
    ensures Verified(hash, rows + pending)
  {
    var more := rows + pending;
    forall k | 0 <= k < |more| ensures VerifiedRow(hash, more, k) {
      if k < |rows| {
        OldRowStaysVerified(hash, rows, pending, k);
      } else {
        assert more[k] == pending[k - |rows|] && Appendable(hash, rows, pending[k - |rows|]);
        if more[k].previousHash != LAYOUT.genesis {
          var j :| 0 <= j < |rows| && IsFoundBy(more[k], rows[j]);
          assert Hangs(more, j, k);
        }
      }
    }
  }

  lemma NewRowIsAppendable(hash: string -> Digest, rows: seq<Row>, log: Log, id: nat)
    ensures Appendable(hash, rows, Seal(hash, log, id, PreviousHash(rows, log.tenant)))
  {
    var row := Seal(hash, log, id, PreviousHash(rows, log.tenant));
    LatestIsThere(rows, LookupKey(log.tenant));
    if Latest(rows, LookupKey(log.tenant)).Some? {
      var j :| 0 <= j < |rows| && rows[j] == Latest(rows, LookupKey(log.tenant)).value
          && rows[j].log.tenant == Some(LookupKey(log.tenant));
      assert IsFoundBy(row, rows[j]);
    }
  }

  /** Over every interleaving of flushes, their lookups and their writes: the rows stay a forest that verifies row by
      row. */
  lemma {:induction false} EveryInterleavingIsAForest(hash: string -> Digest, events: seq<Event>)
    ensures var world := After(hash, events);
      Verified(hash, world.rows) && forall id :: id in world.open ==> AllAppendable(hash, world.rows, world.open[id])
  {
    if events != [] {
      var world, event := After(hash, events[..|events| - 1]), events[|events| - 1];
      EveryInterleavingIsAForest(hash, events[..|events| - 1]);
      match event
      case Audit(id, flush, change) =>
        if IsAudited(change) {
          NewRowIsAppendable(hash, world.rows, LogOf(flush, change, |Pending(world, id)|),
                             flush.ids(|Pending(world, id)|));
        }
      case Persist(id) =>
        if id in world.open {
          AppendingKeepsVerified(hash, world.rows, world.open[id]);
          forall other | other in world.open && other != id
            ensures AllAppendable(hash, world.rows + world.open[id], world.open[other])
          {
            AppendableStays(hash, world.rows, world.open[id], world.open[other]);
          }
        }
    }
  }

  // ----------------------------------------------------------------- what a row's hash seals

  function Links(rows: seq<Row>, path: seq<nat>): seq<Link>
    requires forall p :: 0 <= p < |path| ==> path[p] < |rows|
  {
    seq(|path|, p requires 0 <= p < |path| => Link(FieldsOf(rows[path[p]].log), rows[path[p]].hash))
  }

  predicate HangsOnPrevious(rows: seq<Row>, path: seq<nat>, p: nat)
    requires p < |path|
  {
    && path[p] < |rows|
    && if p == 0 then rows[path[0]].previousHash == LAYOUT.genesis else Hangs(rows, path[p - 1], path[p])
  }

  /** A path of predecessors from a root of the forest. */
  ghost predicate IsRootPath(rows: seq<Row>, path: seq<nat>) {
    && path != [] && (forall p :: 0 <= p < |path| ==> path[p] < |rows|)
    && forall p {:trigger HangsOnPrevious(rows, path, p)} :: 0 <= p < |path| ==> HangsOnPrevious(rows, path, p)
  }

  /** Every row closes a path from a root. */
  lemma {:induction false} EveryRowHasARootPath(hash: string -> Digest, rows: seq<Row>, k: nat) returns (path: seq<nat>)
    requires Verified(hash, rows) && k < |rows|
    ensures IsRootPath(rows, path) && path[|path| - 1] == k
    decreases k
  {
    assert VerifiedRow(hash, rows, k);
    if rows[k].previousHash == LAYOUT.genesis {
      path := [k];
    } else {
      var j :| Hangs(rows, j, k);
      var front := EveryRowHasARootPath(hash, rows, j);
      path := front + [k];
      forall p | 0 <= p < |path| ensures HangsOnPrevious(rows, path, p) {
        if p < |front| { assert HangsOnPrevious(rows, front, p); }
      }
    }
  }

  /** A root path is one chain from genesis, so a row's hash seals everything above it … */
  lemma RootPathIsChained(hash: string -> Digest, rows: seq<Row>, path: seq<nat>)
    requires Verified(hash, rows) && IsRootPath(rows, path)
    ensures Chained(hash, LAYOUT, Links(rows, path))
  {
    var links := Links(rows, path);
    forall p | 0 <= p < |links| ensures links[p].hash == hash(ContentAt(LAYOUT, links, p)) {
      assert VerifiedRow(hash, rows, path[p]) && HangsOnPrevious(rows, path, p);
      if p > 0 {
        assert links[..p][p - 1] == links[p - 1];
      }
    }
  }

  lemma TailOfPath(rows: seq<Row>, path: seq<nat>)
    requires path != [] && forall p :: 0 <= p < |path| ==> path[p] < |rows|
    ensures Tail(LAYOUT, Links(rows, path)) == rows[path[|path| - 1]].hash
  {}

  lemma HashDeterminesRootPath(hash: string -> Digest, xs: seq<Row>, p: seq<nat>, ys: seq<Row>, q: seq<nat>)
    requires Verified(hash, xs) && IsRootPath(xs, p) && AllFit(LAYOUT, Links(xs, p))
    requires Verified(hash, ys) && IsRootPath(ys, q) && AllFit(LAYOUT, Links(ys, q))
    requires !Collide(hash, LAYOUT, Links(xs, p), Links(ys, q))
    ensures xs[p[|p| - 1]].hash == ys[q[|q| - 1]].hash <==> Links(xs, p) == Links(ys, q)
  {
    RootPathIsChained(hash, xs, p);
    RootPathIsChained(hash, ys, q);
    TailOfPath(xs, p);
    TailOfPath(ys, q);
    TailsAgreeIffHistoriesDo(hash, LAYOUT, Links(xs, p), Links(ys, q));
  }

  /** … and nothing beside it: a row nobody hangs on can be removed, and the rest still verifies. */
  lemma LeafRemovalUndetected(hash: string -> Digest, rows: seq<Row>, leaf: nat)
    requires Verified(hash, rows) && leaf < |rows|
    requires forall k :: leaf < k < |rows| ==> !Hangs(rows, leaf, k)
    ensures Verified(hash, rows[..leaf] + rows[leaf + 1..])
  {
    var rest := rows[..leaf] + rows[leaf + 1..];
    forall k | 0 <= k < |rest| ensures VerifiedRow(hash, rest, k) {
      var was := if k < leaf then k else k + 1;
      assert rest[k] == rows[was] && VerifiedRow(hash, rows, was);
      if rows[was].previousHash != LAYOUT.genesis {
        var j :| Hangs(rows, j, was);
        assert Hangs(rest, if j < leaf then j else j - 1, k);
      }
    }
  }

  // ----------------------------------------------------------------- when is it a chain?

  function HashBefore(rows: seq<Row>, k: nat): string
    requires k <= |rows|
  {
    if k == 0 then LAYOUT.genesis else rows[k - 1].hash
  }

  /** Each row hangs on the one before. */
  predicate InLine(rows: seq<Row>) {
    forall k {:trigger HashBefore(rows, k)} :: 0 <= k < |rows| ==> rows[k].previousHash == HashBefore(rows, k)
  }

  predicate Linear(rows: seq<Row>, tenant: Option<string>) {
    InLine(RowsOf(rows, tenant))
  }

  function RowsOf(rows: seq<Row>, tenant: Option<string>): seq<Row> {
    if rows == [] then []
    else
      var last := rows[|rows| - 1];
      RowsOf(rows[..|rows| - 1], tenant) + (if last.log.tenant == tenant then [last] else [])
  }

  lemma {:induction false} RowsOfAppend(rows: seq<Row>, extra: seq<Row>, tenant: Option<string>)
    requires forall k :: 0 <= k < |extra| ==> extra[k].log.tenant == tenant
    ensures RowsOf(rows + extra, tenant) == RowsOf(rows, tenant) + extra
  {
    if extra == [] {
      assert rows + extra == rows;
    } else {
      var n := |extra| - 1;
      RowsOfAppend(rows, extra[..n], tenant);
      var more := rows + extra;
      assert more[..|more| - 1] == rows + extra[..n] && more[|more| - 1] == extra[n];
      assert RowsOf(more, tenant) == RowsOf(rows + extra[..n], tenant) + [extra[n]];
      assert (RowsOf(rows, tenant) + extra[..n]) + [extra[n]] == RowsOf(rows, tenant) + extra;
    }
  }

  lemma InLineAppend(own: seq<Row>, added: seq<Row>, previous: string)
    requires InLine(own) && forall k :: 0 <= k < |added| ==> added[k].previousHash == previous
    ensures InLine(own + added) <==>
            || added == []
            || (&& previous == HashBefore(own, |own|)
                && forall k :: 0 <= k < |added| - 1 ==> added[k].hash == previous)
  {
    var all, n := own + added, |own|;
    forall k | 0 <= k < n ensures all[k].previousHash == HashBefore(all, k) {
      assert own[k].previousHash == HashBefore(own, k);
    }
    if InLine(all) && added != [] {
      assert all[n].previousHash == HashBefore(all, n) == HashBefore(own, n);
      forall k | 0 <= k < |added| - 1 ensures added[k].hash == previous {
        assert all[n + k + 1].previousHash == HashBefore(all, n + k + 1) == added[k].hash;
      }
    }
    if added != [] && previous == HashBefore(own, n) && forall k :: 0 <= k < |added| - 1 ==> added[k].hash == previous {
      forall k | n <= k < |all| ensures all[k].previousHash == HashBefore(all, k) {
        assert all[k] == added[k - n];
        if k > n { assert all[k - 1] == added[k - 1 - n]; }
      }
    }
  }

  /** A flush keeps a tenant's rows in line exactly when it logs nothing, or the lookup finds the last row and the
      flush logs one change; more changes stay in line only if every hash but the last equals the predecessor they
      share, a cycle in the hash. */
  lemma FlushStaysLinearIff(hash: string -> Digest, rows: seq<Row>, flush: Flush, changes: seq<ChangeSet>)
    requires Linear(rows, flush.tenant)
    ensures var added := NewRows(hash, rows, flush, changes);
            var previous := PreviousHash(rows, flush.tenant);
            var own := RowsOf(rows, flush.tenant);
            Linear(rows + added, flush.tenant) <==>
              || added == []
              || (&& previous == HashBefore(own, |own|)
                  && forall k :: 0 <= k < |added| - 1 ==> added[k].hash == previous)
  {
    var added := NewRows(hash, rows, flush, changes);
    SiblingsSharePredecessor(hash, rows, flush, changes);
    RowsOfAppend(rows, added, flush.tenant);
    InLineAppend(RowsOf(rows, flush.tenant), added, PreviousHash(rows, flush.tenant));
  }

  // ----------------------------------------------------------------- a chain, over overlapping flushes

  /** Rows laid behind a tenant's own: the first names the last hash there is, each other one the hash of the row
      before it. */
  predicate FollowsOn(own: seq<Row>, mine: seq<Row>) {
    mine != [] ==>
      && mine[0].previousHash == HashBefore(own, |own|)
      && forall k :: 0 < k < |mine| ==> mine[k].previousHash == mine[k - 1].hash
  }

  lemma InLineGrows(rows: seq<Row>, row: Row)
    ensures InLine(rows + [row]) <==> InLine(rows) && row.previousHash == HashBefore(rows, |rows|)
  {
    var more := rows + [row];
    assert forall k {:trigger HashBefore(rows, k)} :: 0 <= k <= |rows| ==> HashBefore(more, k) == HashBefore(rows, k);
    if InLine(more) {
      assert more[|rows|].previousHash == HashBefore(more, |rows|);
      forall k | 0 <= k < |rows| ensures rows[k].previousHash == HashBefore(rows, k) {
        assert more[k].previousHash == HashBefore(more, k);
      }
    }
    if InLine(rows) && row.previousHash == HashBefore(rows, |rows|) {
      forall k | 0 <= k < |more| ensures more[k].previousHash == HashBefore(more, k) {
        assert k < |rows| ==> rows[k].previousHash == HashBefore(rows, k);
      }
    }
  }

  lemma FollowsOnGrows(own: seq<Row>, mine: seq<Row>, row: Row)
    ensures FollowsOn(own, mine + [row]) <==>
            FollowsOn(own, mine) && row.previousHash == HashBefore(own + mine, |own + mine|)
  {
    var more := mine + [row];
    if FollowsOn(own, more) && mine != [] {
      assert mine[0] == more[0] && more[|mine|].previousHash == more[|mine| - 1].hash;
      forall k | 0 < k < |mine| ensures mine[k].previousHash == mine[k - 1].hash {
        assert more[k].previousHash == more[k - 1].hash;
      }
    }
  }

  lemma {:induction false} InLineConcat(own: seq<Row>, mine: seq<Row>)
    ensures InLine(own + mine) <==> InLine(own) && FollowsOn(own, mine)
  {
    if mine == [] {
      assert own + mine == own;
    } else {
      var front, last := mine[..|mine| - 1], mine[|mine| - 1];
      InLineConcat(own, front);
      InLineGrows(own + front, last);
      FollowsOnGrows(own, front, last);
      assert (own + front) + [last] == own + mine && front + [last] == mine;
    }
  }

  lemma {:induction false} RowsOfConcat(rows: seq<Row>, extra: seq<Row>, tenant: Option<string>)
    ensures RowsOf(rows + extra, tenant) == RowsOf(rows, tenant) + RowsOf(extra, tenant)
  {
    if extra == [] {
      assert rows + extra == rows;
    } else {
      var n, more := |extra| - 1, rows + extra;
      RowsOfConcat(rows, extra[..n], tenant);
      assert more[..|more| - 1] == rows + extra[..n] && more[|more| - 1] == extra[n];
    }
  }

  /** A flush whose rows for the tenant do not follow on from those stored when it persists them. */
  predicate Stale(world: World, event: Event, tenant: Option<string>) {
    && event.Persist? && event.id in world.open
    && !FollowsOn(RowsOf(world.rows, tenant), RowsOf(world.open[event.id], tenant))
  }

  ghost predicate NeverStale(hash: string -> Digest, events: seq<Event>, tenant: Option<string>) {
    events != [] ==>
      && !Stale(After(hash, events[..|events| - 1]), events[|events| - 1], tenant)
      && NeverStale(hash, events[..|events| - 1], tenant)
  }

  /** Over every interleaving of lookups and writes: a tenant's rows are one chain exactly when no flush was stale as
      it persisted. */
  lemma {:induction false} LinearIffNeverStale(hash: string -> Digest, events: seq<Event>, tenant: Option<string>)
    ensures Linear(After(hash, events).rows, tenant) <==> NeverStale(hash, events, tenant)
  {
    if events != [] {
      var shorter, event := events[..|events| - 1], events[|events| - 1];
      LinearIffNeverStale(hash, shorter, tenant);
      var world := After(hash, shorter);
      if event.Persist? && event.id in world.open {
        RowsOfConcat(world.rows, world.open[event.id], tenant);
        InLineConcat(RowsOf(world.rows, tenant), RowsOf(world.open[event.id], tenant));
      }
    }
  }

  /** A flush with two rows of a tenant is stale, unless the first of them repeats a stored hash or is hashed to
      genesis. */
  lemma TwoRowsAreStale(hash: string -> Digest, events: seq<Event>, id: nat, tenant: Option<string>)
    requires var world := After(hash, events);
      id in world.open && |RowsOf(world.open[id], tenant)| >= 2
    ensures var world := After(hash, events);
            var first := RowsOf(world.open[id], tenant)[0];
      || Stale(world, Persist(id), tenant) || first.hash == LAYOUT.genesis
      || exists row :: row in world.rows && row.hash == first.hash
  {
    var world := After(hash, events);
    var mine := RowsOf(world.open[id], tenant);
    EveryInterleavingIsAForest(hash, events);
    OwnRowsAreRows(world.open[id], tenant);
    assert mine[1] in world.open[id];
    var k :| 0 <= k < |world.open[id]| && world.open[id][k] == mine[1];
    assert Appendable(hash, world.rows, mine[1]);
  }

  // ----------------------------------------------------------------- a chain, one small flush at a time

  predicate Rising(rows: seq<Row>) {
    forall i, j :: 0 <= i < j < |rows| ==> rows[i].log.time.ms < rows[j].log.time.ms
  }

  lemma {:induction false} OwnRowsAreRows(rows: seq<Row>, tenant: Option<string>)
    ensures forall row :: row in RowsOf(rows, tenant) ==> row in rows
  {
    if rows != [] {
      OwnRowsAreRows(rows[..|rows| - 1], tenant);
    }
  }

  /** On a rising clock the lookup finds the tenant's last row. */
  lemma {:induction false} RisingLookupFindsLast(rows: seq<Row>, tenant: string)
    requires Rising(rows)
    ensures var own, latest := RowsOf(rows, Some(tenant)), Latest(rows, tenant);
            if own == [] then latest.None? else latest == Some(own[|own| - 1])
  {
    if rows != [] {
      var front, last := rows[..|rows| - 1], rows[|rows| - 1];
      RisingLookupFindsLast(front, tenant);
      OwnRowsAreRows(front, Some(tenant));
      var own := RowsOf(front, Some(tenant));
      if own != [] {
        assert own[|own| - 1] in front;
        assert Later(last, own[|own| - 1]);
      }
    }
  }

  /** Flushes one after the other. */
  function AllFlushes(hash: string -> Digest, flushes: seq<(Flush, seq<ChangeSet>)>): seq<Row> {
    if flushes == [] then []
    else
      var rows, last := AllFlushes(hash, flushes[..|flushes| - 1]), flushes[|flushes| - 1];
      rows + NewRows(hash, rows, last.0, last.1)
  }

  /** Every flush logs at most one change, at a later time than all before it. */
  ghost predicate OneAtATime(hash: string -> Digest, flushes: seq<(Flush, seq<ChangeSet>)>) {
    flushes != [] ==>
      && OneAtATime(hash, flushes[..|flushes| - 1])
      && var rows, last := AllFlushes(hash, flushes[..|flushes| - 1]), flushes[|flushes| - 1];
      && |NewRows(hash, rows, last.0, last.1)| <= 1
      && forall row :: row in rows ==> row.log.time.ms < last.0.times(0).ms
  }

  lemma {:induction false} NewRowsHaveTimes(hash: string -> Digest, rows: seq<Row>, flush: Flush,
                                            changes: seq<ChangeSet>)
    ensures forall k :: 0 <= k < |NewRows(hash, rows, flush, changes)| ==>
        NewRows(hash, rows, flush, changes)[k].log.time == flush.times(k)
  {
    if changes != [] {
      NewRowsHaveTimes(hash, rows, flush, changes[..|changes| - 1]);
    }
  }

  lemma {:induction false} OtherRowsKept(rows: seq<Row>, extra: seq<Row>, tenant: Option<string>)
    requires forall k :: 0 <= k < |extra| ==> extra[k].log.tenant != tenant
    ensures RowsOf(rows + extra, tenant) == RowsOf(rows, tenant)
  {
    if extra == [] {
      assert rows + extra == rows;
    } else {
      var n := |extra| - 1;
      OtherRowsKept(rows, extra[..n], tenant);
      var more := rows + extra;
      assert more[..|more| - 1] == rows + extra[..n] && more[|more| - 1] == extra[n];
    }
  }

  lemma SmallFlushKeepsLinear(hash: string -> Digest, rows: seq<Row>, flush: Flush, changes: seq<ChangeSet>,
                              tenant: string)
    requires Rising(rows) && Linear(rows, Some(tenant)) && tenant != ""
    requires |NewRows(hash, rows, flush, changes)| <= 1
    ensures Linear(rows + NewRows(hash, rows, flush, changes), Some(tenant))
  {
    SiblingsSharePredecessor(hash, rows, flush, changes);
    if flush.tenant == Some(tenant) {
      RisingLookupFindsLast(rows, tenant);
      FlushStaysLinearIff(hash, rows, flush, changes);
    } else {
      OtherRowsKept(rows, NewRows(hash, rows, flush, changes), Some(tenant));
    }
  }

  /** When every flush logs at most one change and the clock rises, the rows of every tenant are one chain. */
  lemma {:induction false} OneAtATimeMakesChains(hash: string -> Digest, flushes: seq<(Flush, seq<ChangeSet>)>,
                                                 tenant: string)
    requires OneAtATime(hash, flushes) && tenant != ""
    ensures Rising(AllFlushes(hash, flushes)) && Linear(AllFlushes(hash, flushes), Some(tenant))
  {
    if flushes != [] {
      var shorter, last := flushes[..|flushes| - 1], flushes[|flushes| - 1];
      OneAtATimeMakesChains(hash, shorter, tenant);
      NewRowsHaveTimes(hash, AllFlushes(hash, shorter), last.0, last.1);
      SmallFlushKeepsLinear(hash, AllFlushes(hash, shorter), last.0, last.1, tenant);
    }
  }

  /** Without a tenant no row is ever found: every such row is a root, unless some tenant is called "system". */
  lemma RowsWithoutTenantAreRoots(hash: string -> Digest, rows: seq<Row>, flush: Flush, changes: seq<ChangeSet>)
    requires flush.tenant == None
    requires forall k :: 0 <= k < |rows| ==> rows[k].log.tenant != Some("system")
    ensures forall k :: 0 <= k < |NewRows(hash, rows, flush, changes)| ==>
              NewRows(hash, rows, flush, changes)[k].previousHash == LAYOUT.genesis
  {
    SiblingsSharePredecessor(hash, rows, flush, changes);
    LatestIsThere(rows, "system");
  }
}
