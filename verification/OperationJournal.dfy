/** The hash-chained journal of control-plane operations: one table, one chain per tenant
    (libs/kernel/tenant/src/lib/tenant-operation.service.ts, appendToJournal). */
module OperationJournal {
  import opened DelimitedText
  import opened HashChain

  const LAYOUT := Layout(':', 4, 3, false, "genesis-standard-enterprise-5-5")

  /** An ISO timestamp, cut at its two colons. */
  datatype Time = Time(hour: string, minute: string, second: string)

  datatype Entry = Entry(tenant: string, operation: string, opType: string, state: string, payload: string,
                         created: Time)

  datatype Row = Row(entry: Entry, chainHash: Digest)

  function FieldsOf(entry: Entry): Fields {
    Fields([entry.tenant, entry.operation, entry.opType, entry.state], entry.payload,
           [entry.created.hour, entry.created.minute, entry.created.second])
  }

  /** Ids, enum texts and the pieces of the timestamp hold no colon; the payload may. */
  predicate ColonFree(entry: Entry) {
    Fits(LAYOUT, FieldsOf(entry))
  }

  /** The string that is hashed: the fields, the payload, the timestamp and the last hash, all joined by colons. */
  function Spelling(entry: Entry, lastHash: string): string {
    Content(LAYOUT, FieldsOf(entry), lastHash)
  }

  lemma SpelledOut(entry: Entry, lastHash: string)
    ensures Spelling(entry, lastHash) ==
            entry.tenant + ":" + entry.operation + ":" + entry.opType + ":" + entry.state + ":" + entry.payload + ":"
            + (entry.created.hour + ":" + entry.created.minute + ":" + entry.created.second) + ":" + lastHash
  {
    var t := entry.created;
    BeforeFour(':', entry.tenant, entry.operation, entry.opType, entry.state);
    assert FieldsOf(entry).right + [lastHash] == [t.hour, t.minute] + [t.second, lastHash];
    BehindOfConcat(':', [t.hour, t.minute], [t.second, lastHash]);
    BehindTwo(':', t.hour, t.minute);
    BehindTwo(':', t.second, lastHash);
  }

  function RowsOf(table: seq<Row>, tenant: string): seq<Row> {
    if table == [] then []
    else
      var last := table[|table| - 1];
      RowsOf(table[..|table| - 1], tenant) + (if last.entry.tenant == tenant then [last] else [])
  }

  function Links(rows: seq<Row>): seq<Link> {
    seq(|rows|, k requires 0 <= k < |rows| => Link(FieldsOf(rows[k].entry), rows[k].chainHash))
  }

  /** `SELECT chain_hash … WHERE tenant_id = ? ORDER BY id DESC LIMIT 1`, or genesis. */
  function LastHash(table: seq<Row>, tenant: string): string {
    if table == [] then LAYOUT.genesis
    else if table[|table| - 1].entry.tenant == tenant then table[|table| - 1].chainHash
    else LastHash(table[..|table| - 1], tenant)
  }

  lemma {:induction false} LastHashIsTail(table: seq<Row>, tenant: string)
    ensures LastHash(table, tenant) == Tail(LAYOUT, Links(RowsOf(table, tenant)))
  {
    if table != [] {
      LastHashIsTail(table[..|table| - 1], tenant);
    }
  }

  /** A tenant's first row is sealed onto genesis. */
  lemma FirstIsSealedOntoGenesis(table: seq<Row>, tenant: string)
    requires RowsOf(table, tenant) == []
    ensures LastHash(table, tenant) == "genesis-standard-enterprise-5-5"
  {
    LastHashIsTail(table, tenant);
  }

  function Seal(hash: string -> Digest, entry: Entry, lastHash: string): Row {
    Row(entry, hash(Spelling(entry, lastHash)))
  }

  /** The tenant's rows are one chain from genesis. */
  ghost predicate Linear(hash: string -> Digest, table: seq<Row>, tenant: string) {
    Chained(hash, LAYOUT, Links(RowsOf(table, tenant)))
  }

  class Journal {
    var table: seq<Row>

    /** Run without interruption between its read and its insert. */
    method AppendToJournal(hash: string -> Digest, entry: Entry, configured: bool, works: bool, strict: bool)
      returns (threw: bool)
      modifies this
      ensures threw <==> strict && !(configured && works)
      ensures table == old(table)
                       + if configured && works then [Seal(hash, entry, LastHash(old(table), entry.tenant))] else []
      ensures forall tenant :: old(Linear(hash, table, tenant)) ==> Linear(hash, table, tenant)
    {
      if !configured { return strict; }
      var lastHash := LastHash(table, entry.tenant);
      var chainHash := hash(Spelling(entry, lastHash));
      if !works { return strict; }
      ghost var before := table;
      table := table + [Row(entry, chainHash)];
      forall tenant | Linear(hash, before, tenant) ensures Linear(hash, table, tenant) {
        InsertKeepsLinear(hash, before, entry, lastHash, tenant);
      }
      return false;
    }
  }

  // ----------------------------------------------------------------- reads and inserts interleaved

  /** Two different contents of this entry with one digest. */
  predicate Clash(hash: string -> Digest, entry: Entry, p: string, q: string) {
    Spelling(entry, p) != Spelling(entry, q) && hash(Spelling(entry, p)) == hash(Spelling(entry, q))
  }

  /** An insert sealed onto `lastHash` keeps a tenant's chain exactly when the row is another tenant's or `lastHash`
      is still the last. */
  lemma InsertKeepsLinear(hash: string -> Digest, table: seq<Row>, entry: Entry, lastHash: string, tenant: string)
    requires Linear(hash, table, tenant)
    ensures Linear(hash, table + [Seal(hash, entry, lastHash)], tenant) <==>
            entry.tenant != tenant || lastHash == LastHash(table, tenant)
                || Clash(hash, entry, lastHash, LastHash(table, tenant))
  {
    var row := Seal(hash, entry, lastHash);
    var more := table + [row];
    assert more[..|more| - 1] == table;
    if entry.tenant == tenant {
      var links, link := Links(RowsOf(table, tenant)), Link(FieldsOf(entry), row.chainHash);
      assert Links(RowsOf(more, tenant)) == links + [link];
      AppendKeepsChain(hash, LAYOUT, links, link);
      LastHashIsTail(table, tenant);
      ContentSeesPrevious(LAYOUT, FieldsOf(entry), lastHash, LastHash(table, tenant));
    } else {
      assert RowsOf(more, tenant) == RowsOf(table, tenant);
    }
  }

  /** A broken chain stays broken, whatever is appended. */
  lemma BrokenStaysBroken(hash: string -> Digest, table: seq<Row>, row: Row, tenant: string)
    requires !Linear(hash, table, tenant)
    ensures !Linear(hash, table + [row], tenant)
  {
    var more := table + [row];
    assert more[..|more| - 1] == table;
    var links, longer := Links(RowsOf(table, tenant)), Links(RowsOf(more, tenant));
    assert longer[..|links|] == links;
    if Chained(hash, LAYOUT, longer) {
      PrefixIsChained(hash, LAYOUT, longer, |links|);
    }
  }

  /** Callers between their read and their insert. */
  datatype World = World(table: seq<Row>, seen: map<nat, string>)

  datatype Event = Read(task: nat, tenant: string) | Insert(task: nat, entry: Entry)

  function Next(hash: string -> Digest, world: World, event: Event): World {
    match event
    case Read(task, tenant) => world.(seen := world.seen[task := LastHash(world.table, tenant)])
    case Insert(task, entry) =>
      if task !in world.seen then world
      else World(world.table + [Seal(hash, entry, world.seen[task])], world.seen - {task})
  }

  function After(hash: string -> Digest, events: seq<Event>): World {
    if events == [] then World([], map[]) else Next(hash, After(hash, events[..|events| - 1]), events[|events| - 1])
  }

  /** An insert for the tenant that is not sealed onto the tenant's last row. */
  predicate Stale(hash: string -> Digest, world: World, event: Event, tenant: string) {
    && event.Insert? && event.task in world.seen && event.entry.tenant == tenant
    && var last := LastHash(world.table, tenant);
    world.seen[event.task] != last && !Clash(hash, event.entry, world.seen[event.task], last)
  }

  ghost predicate NeverStale(hash: string -> Digest, events: seq<Event>, tenant: string) {
    events != [] ==>
      && !Stale(hash, After(hash, events[..|events| - 1]), events[|events| - 1], tenant)
      && NeverStale(hash, events[..|events| - 1], tenant)
  }

  /** Over every interleaving: a tenant's rows form one chain from genesis exactly when none of its inserts was
      stale. */
  lemma {:induction false} LinearIffNeverStale(hash: string -> Digest, events: seq<Event>, tenant: string)
    ensures Linear(hash, After(hash, events).table, tenant) <==> NeverStale(hash, events, tenant)
  {
    if events != [] {
      var shorter, event := events[..|events| - 1], events[|events| - 1];
      LinearIffNeverStale(hash, shorter, tenant);
      var world := After(hash, shorter);
      if event.Insert? && event.task in world.seen {
        var lastHash := world.seen[event.task];
        if Linear(hash, world.table, tenant) {
          InsertKeepsLinear(hash, world.table, event.entry, lastHash, tenant);
        } else {
          BrokenStaysBroken(hash, world.table, Seal(hash, event.entry, lastHash), tenant);
        }
      }
    }
  }

  /** Two appends whose reads both come first are enough to fork a journal, short of a clash. */
  lemma OverlappingAppendsFork(hash: string -> Digest, first: Entry, second: Entry)
    requires first.tenant == second.tenant
    requires !Clash(hash, second, LAYOUT.genesis, Seal(hash, first, LAYOUT.genesis).chainHash)
    ensures var tenant := first.tenant;
            var events := [Read(1, tenant), Read(2, tenant), Insert(1, first), Insert(2, second)];
            !Linear(hash, After(hash, events).table, tenant)
  {
    var tenant := first.tenant;
    FourSteps(hash, Read(1, tenant), Read(2, tenant), Insert(1, first), Insert(2, second));
    var both := World([], map[1 := LAYOUT.genesis, 2 := LAYOUT.genesis]);
    BothReadGenesis(hash, tenant, both);
    var row := Seal(hash, first, LAYOUT.genesis);
    assert Next(hash, both, Insert(1, first)).table == [row];
    SealedAlike(hash, first, second);
  }

  lemma BothReadGenesis(hash: string -> Digest, tenant: string, both: World)
    requires both == World([], map[1 := LAYOUT.genesis, 2 := LAYOUT.genesis])
    ensures Next(hash, Next(hash, World([], map[]), Read(1, tenant)), Read(2, tenant)) == both
  {
    var one := Next(hash, World([], map[]), Read(1, tenant));
    assert one == World([], map[1 := LAYOUT.genesis]);
  }

  lemma SealedAlike(hash: string -> Digest, first: Entry, second: Entry)
    requires first.tenant == second.tenant
    requires !Clash(hash, second, LAYOUT.genesis, Seal(hash, first, LAYOUT.genesis).chainHash)
    ensures !Linear(hash, [Seal(hash, first, LAYOUT.genesis)] + [Seal(hash, second, LAYOUT.genesis)], first.tenant)
  {
    var row := Seal(hash, first, LAYOUT.genesis);
    InsertKeepsLinear(hash, [], first, LAYOUT.genesis, first.tenant);
    assert [] + [row] == [row];
    InsertKeepsLinear(hash, [row], second, LAYOUT.genesis, first.tenant);
  }

  lemma FourSteps(hash: string -> Digest, a: Event, b: Event, c: Event, d: Event)
    ensures After(hash, [a, b, c, d]) == Next(hash, Next(hash, Next(hash, Next(hash, World([], map[]), a), b), c), d)
  {
    var events := [a, b, c, d];
    Unfold(hash, events, 0); Unfold(hash, events, 1); Unfold(hash, events, 2); Unfold(hash, events, 3);
    assert events[..4] == events;
  }

  lemma Unfold(hash: string -> Digest, events: seq<Event>, k: nat)
    requires k < |events|
    ensures After(hash, events[..k + 1]) == Next(hash, After(hash, events[..k]), events[k])
  {
    assert events[..k + 1][..k] == events[..k];
  }

  // ----------------------------------------------------------------- tamper evidence

  predicate AllColonFree(rows: seq<Row>) {
    forall k :: 0 <= k < |rows| ==> ColonFree(rows[k].entry)
  }

  /** Two journals that are linear for a tenant and agree on its last hash hold the same rows for it, or exhibit a
      collision. */
  lemma LastHashDeterminesRows(hash: string -> Digest, xs: seq<Row>, ys: seq<Row>, tenant: string)
    requires Linear(hash, xs, tenant) && Linear(hash, ys, tenant)
    requires AllColonFree(RowsOf(xs, tenant)) && AllColonFree(RowsOf(ys, tenant))
    requires !Collide(hash, LAYOUT, Links(RowsOf(xs, tenant)), Links(RowsOf(ys, tenant)))
    ensures LastHash(xs, tenant) == LastHash(ys, tenant) <==> RowsOf(xs, tenant) == RowsOf(ys, tenant)
  {
    var a, b := RowsOf(xs, tenant), RowsOf(ys, tenant);
    LinksFit(a);
    LinksFit(b);
    LastHashIsTail(xs, tenant);
    LastHashIsTail(ys, tenant);
    TailsAgreeIffHistoriesDo(hash, LAYOUT, Links(a), Links(b));
    LinksAreFaithful(a, b);
  }

  lemma LinksFit(rows: seq<Row>)
    requires AllColonFree(rows)
    ensures AllFit(LAYOUT, Links(rows))
  {}

  lemma LinksAreFaithful(a: seq<Row>, b: seq<Row>)
    ensures Links(a) == Links(b) <==> a == b
  {
    if Links(a) == Links(b) {
      assert |a| == |Links(a)| == |b|;
      forall k | 0 <= k < |a| ensures a[k] == b[k] {
        assert Links(a)[k] == Links(b)[k];
        FieldsAreFaithful(a[k].entry, b[k].entry);
      }
    }
  }

  lemma FieldsAreFaithful(a: Entry, b: Entry)
    ensures FieldsOf(a) == FieldsOf(b) <==> a == b
  {
    var f, g := FieldsOf(a), FieldsOf(b);
    if f == g {
      assert f.left[0] == g.left[0] && f.left[1] == g.left[1] && f.left[2] == g.left[2] && f.left[3] == g.left[3];
      assert f.right[0] == g.right[0] && f.right[1] == g.right[1] && f.right[2] == g.right[2];
    }
  }
}
