/** The operation journal when the order of its ids, by which the last hash is selected, is not the order in which
    its rows become visible, as when two inserts draw numbers from one sequence and commit the other way round
    (libs/kernel/tenant/src/lib/tenant-operation.service.ts, appendToJournal). */
module JournalOrder {
  import opened DelimitedText
  import opened HashChain
  import opened OperationJournal

  datatype Stored = Stored(id: nat, row: Row)

  function RowsIn(table: seq<Stored>): seq<Row> {
    seq(|table|, k requires 0 <= k < |table| => table[k].row)
  }

  predicate Sorted(table: seq<Stored>) {
    forall i, j :: 0 <= i < j < |table| ==> table[i].id < table[j].id
  }

  /** How many rows have a smaller id; the table is kept in the order of its ids. */
  function Place(table: seq<Stored>, id: nat): (k: nat)
    ensures k <= |table|
    ensures Sorted(table) ==> forall i :: 0 <= i < k ==> table[i].id < id
    ensures Sorted(table) ==> forall i :: k <= i < |table| ==> id <= table[i].id
  {
    if table == [] || table[|table| - 1].id < id then |table| else Place(table[..|table| - 1], id)
  }

  /** A row with an id in use violates the primary key. */
  predicate IsTaken(table: seq<Stored>, id: nat) {
    exists k :: 0 <= k < |table| && table[k].id == id
  }

  datatype Store = Store(table: seq<Stored>, seen: map<nat, string>)

  /** `Insert` is the moment the row becomes visible, with whatever id it has drawn. */
  datatype Event = Read(task: nat, tenant: string) | Insert(task: nat, entry: Entry, id: nat)

  predicate Inserts(store: Store, event: Event) {
    event.Insert? && event.task in store.seen && !IsTaken(store.table, event.id)
  }

  function Next(hash: string -> Digest, store: Store, event: Event): Store {
    match event
    case Read(task, tenant) => store.(seen := store.seen[task := LastHash(RowsIn(store.table), tenant)])
    case Insert(task, entry, id) =>
      if !Inserts(store, event) then store.(seen := store.seen - {task})
      else
        var k, stored := Place(store.table, id), Stored(id, Seal(hash, entry, store.seen[task]));
        Store(store.table[..k] + [stored] + store.table[k..], store.seen - {task})
  }

  function After(hash: string -> Digest, events: seq<Event>): Store {
    if events == [] then Store([], map[]) else Next(hash, After(hash, events[..|events| - 1]), events[|events| - 1])
  }

  /** The hash of a tenant's first row at or behind a place is the same whether it follows `p` or `q`. */
  predicate FollowsEither(hash: string -> Digest, rows: seq<Row>, p: string, q: string) {
    rows == [] || p == q || Clash(hash, rows[0].entry, p, q)
  }

  /** The new row is sealed onto another hash than that of the tenant's row before its place, or it comes between two
      rows of the tenant; short of a clash. */
  predicate Breaks(hash: string -> Digest, store: Store, event: Event, tenant: string) {
    Inserts(store, event) && event.entry.tenant == tenant &&
      var k := Place(store.table, event.id);
      var before, behind := RowsIn(store.table[..k]), RowsOf(RowsIn(store.table[k..]), tenant);
      var row := Seal(hash, event.entry, store.seen[event.task]);
      !(&& FollowsEither(hash, [row], store.seen[event.task], LastHash(before, tenant))
        && FollowsEither(hash, behind, LastHash(before, tenant), row.chainHash))
  }

  ghost predicate AlwaysLinear(hash: string -> Digest, events: seq<Event>, tenant: string) {
    && Linear(hash, RowsIn(After(hash, events).table), tenant)
    && (events != [] ==> AlwaysLinear(hash, events[..|events| - 1], tenant))
  }

  ghost predicate NeverBreaks(hash: string -> Digest, events: seq<Event>, tenant: string) {
    events != [] ==>
      && !Breaks(hash, After(hash, events[..|events| - 1]), events[|events| - 1], tenant)
      && NeverBreaks(hash, events[..|events| - 1], tenant)
  }

  lemma {:induction false} RowsOfConcat(a: seq<Row>, b: seq<Row>, tenant: string)
    ensures RowsOf(a + b, tenant) == RowsOf(a, tenant) + RowsOf(b, tenant)
  {
    if b == [] {
      assert a + b == a;
    } else {
      RowsOfConcat(a, b[..|b| - 1], tenant);
      assert (a + b)[..|a + b| - 1] == a + b[..|b| - 1] && (a + b)[|a + b| - 1] == b[|b| - 1];
    }
  }

  /** Each link is hashed together with the one before it, the first with `previous`. */
  ghost predicate ChainedFrom(hash: string -> Digest, previous: string, links: seq<Link>) {
    links != [] ==>
      && links[0].hash == hash(Content(LAYOUT, links[0].fields, previous))
      && forall k :: 0 < k < |links| ==> links[k].hash == hash(Content(LAYOUT, links[k].fields, links[k - 1].hash))
  }

  lemma ChainedFromGrows(hash: string -> Digest, previous: string, links: seq<Link>, link: Link, more: seq<Link>)
    requires more == links + [link]
    ensures ChainedFrom(hash, previous, more) <==>
            && ChainedFrom(hash, previous, links)
            && var last := if links == [] then previous else links[|links| - 1].hash;
               link.hash == hash(Content(LAYOUT, link.fields, last))
  {
    var n := |links|;
    if ChainedFrom(hash, previous, more) && n > 0 {
      assert more[0] == links[0] && more[n].hash == hash(Content(LAYOUT, more[n].fields, more[n - 1].hash));
      forall k | 0 < k < n ensures links[k].hash == hash(Content(LAYOUT, links[k].fields, links[k - 1].hash)) {
        assert more[k].hash == hash(Content(LAYOUT, more[k].fields, more[k - 1].hash));
      }
    }
  }

  lemma ChainGrowsIff(hash: string -> Digest, links: seq<Link>, link: Link, more: seq<Link>)
    requires more == links + [link]
    ensures Chained(hash, LAYOUT, more) <==>
        Chained(hash, LAYOUT, links) && link.hash == hash(Content(LAYOUT, link.fields, Tail(LAYOUT, links)))
  {
    if Chained(hash, LAYOUT, links) {
      AppendKeepsChain(hash, LAYOUT, links, link);
    } else if Chained(hash, LAYOUT, more) {
      assert more[..|links|] == links;
      PrefixIsChained(hash, LAYOUT, more, |links|);
    }
  }

  lemma BothGrow(hash: string -> Digest, a: seq<Link>, front: seq<Link>, b: seq<Link>)
    requires b != [] && front == b[..|b| - 1]
    requires Chained(hash, LAYOUT, a + front) <==> Chained(hash, LAYOUT, a) && ChainedFrom(hash, Tail(LAYOUT, a), front)
    ensures Chained(hash, LAYOUT, a + b) <==> Chained(hash, LAYOUT, a) && ChainedFrom(hash, Tail(LAYOUT, a), b)
  {
    var link := b[|b| - 1];
    assert b == front + [link] && a + b == (a + front) + [link];
    var last := if front == [] then Tail(LAYOUT, a) else front[|front| - 1].hash;
    assert Tail(LAYOUT, a + front) == last;
    calc {
      Chained(hash, LAYOUT, a + b);
    <==> { ChainGrowsIff(hash, a + front, link, a + b); }
      Chained(hash, LAYOUT, a + front) && link.hash == hash(Content(LAYOUT, link.fields, last));
    <==>
      Chained(hash, LAYOUT, a) && ChainedFrom(hash, Tail(LAYOUT, a), front)
      && link.hash == hash(Content(LAYOUT, link.fields, last));
    <==> { ChainedFromGrows(hash, Tail(LAYOUT, a), front, link, b); }
      Chained(hash, LAYOUT, a) && ChainedFrom(hash, Tail(LAYOUT, a), b);
    }
  }

  lemma {:induction false} ChainedConcat(hash: string -> Digest, a: seq<Link>, b: seq<Link>)
    ensures Chained(hash, LAYOUT, a + b) <==> Chained(hash, LAYOUT, a) && ChainedFrom(hash, Tail(LAYOUT, a), b)
  {
    if b == [] {
      assert a + b == a;
    } else {
      ChainedConcat(hash, a, b[..|b| - 1]);
      BothGrow(hash, a, b[..|b| - 1], b);
    }
  }

  /** A chain with a row put in: it must follow what is before it, and be as good a predecessor for what comes
      behind. */
  lemma PutInChain(hash: string -> Digest, lo: seq<Link>, link: Link, hi: seq<Link>)
    requires Chained(hash, LAYOUT, lo + hi)
    ensures Chained(hash, LAYOUT, lo + [link] + hi) <==>
            && link.hash == hash(Content(LAYOUT, link.fields, Tail(LAYOUT, lo)))
            && (hi != [] ==> hi[0].hash == hash(Content(LAYOUT, hi[0].fields, link.hash)))
  {
    ChainedConcat(hash, lo, hi);
    ChainedConcat(hash, lo + [link], hi);
    AppendKeepsChain(hash, LAYOUT, lo, link);
  }

  lemma LinksOfConcat(a: seq<Row>, b: seq<Row>)
    ensures Links(a + b) == Links(a) + Links(b)
  {
  }

  /** The tenant's rows before the place, the new one if it is the tenant's, and those behind. */
  lemma PlacedRows(store: Store, event: Event, row: Row, tenant: string)
    requires event.Insert?
    ensures var k := Place(store.table, event.id);
            var lo, hi := RowsOf(RowsIn(store.table[..k]), tenant), RowsOf(RowsIn(store.table[k..]), tenant);
            && RowsOf(RowsIn(store.table), tenant) == lo + hi
            && RowsOf(RowsIn(store.table[..k] + [Stored(event.id, row)] + store.table[k..]), tenant) ==
               if row.entry.tenant == tenant then lo + [row] + hi else lo + hi
  {
    var k := Place(store.table, event.id);
    var before, behind := RowsIn(store.table[..k]), RowsIn(store.table[k..]);
    var now := store.table[..k] + [Stored(event.id, row)] + store.table[k..];
    assert RowsIn(store.table) == before + behind && RowsIn(now) == before + [row] + behind;
    RowsOfConcat(before, behind, tenant);
    RowsOfConcat(before, [row], tenant);
    RowsOfConcat(before + [row], behind, tenant);
    assert RowsOf(before, tenant) + [] == RowsOf(before, tenant);
  }

  lemma FollowsEitherIff(hash: string -> Digest, row: Row, p: string, q: string)
    requires row.chainHash == hash(Spelling(row.entry, p))
    ensures row.chainHash == hash(Spelling(row.entry, q)) <==> FollowsEither(hash, [row], p, q)
  {
    ContentSeesPrevious(LAYOUT, FieldsOf(row.entry), p, q);
  }

  lemma OwnInsert(hash: string -> Digest, store: Store, event: Event, tenant: string)
    requires Linear(hash, RowsIn(store.table), tenant) && Inserts(store, event) && event.entry.tenant == tenant
    ensures Linear(hash, RowsIn(Next(hash, store, event).table), tenant) <==> !Breaks(hash, store, event, tenant)
  {
    var k, row := Place(store.table, event.id), Seal(hash, event.entry, store.seen[event.task]);
    PlacedRows(store, event, row, tenant);
    var before, behind := RowsIn(store.table[..k]), RowsIn(store.table[k..]);
    PutInLinear(hash, before, row, store.seen[event.task], behind, tenant);
    assert RowsOf(RowsIn(Next(hash, store, event).table), tenant) ==
      RowsOf(before, tenant) + [row] + RowsOf(behind, tenant);
  }

  lemma OtherInsert(hash: string -> Digest, store: Store, event: Event, tenant: string)
    requires Inserts(store, event) && event.entry.tenant != tenant
    ensures RowsOf(RowsIn(Next(hash, store, event).table), tenant) == RowsOf(RowsIn(store.table), tenant)
  {
    var k, row := Place(store.table, event.id), Seal(hash, event.entry, store.seen[event.task]);
    PlacedRows(store, event, row, tenant);
  }

  /** One event keeps a tenant's chain, in the order of the ids, exactly when it does not break it. */
  lemma EventKeepsLinearIff(hash: string -> Digest, store: Store, event: Event, tenant: string)
    requires Linear(hash, RowsIn(store.table), tenant)
    ensures Linear(hash, RowsIn(Next(hash, store, event).table), tenant) <==> !Breaks(hash, store, event, tenant)
  {
    if Inserts(store, event) {
      if event.entry.tenant == tenant { OwnInsert(hash, store, event, tenant); }
      else { OtherInsert(hash, store, event, tenant); }
    }
  }

  lemma PutInLinear(hash: string -> Digest, before: seq<Row>, row: Row, seen: string, behind: seq<Row>, tenant: string)
    requires row.chainHash == hash(Spelling(row.entry, seen))
    requires Chained(hash, LAYOUT, Links(RowsOf(before, tenant) + RowsOf(behind, tenant)))
    ensures Chained(hash, LAYOUT, Links(RowsOf(before, tenant) + [row] + RowsOf(behind, tenant))) <==>
            && FollowsEither(hash, [row], seen, LastHash(before, tenant))
            && FollowsEither(hash, RowsOf(behind, tenant), LastHash(before, tenant), row.chainHash)
  {
    var lo, hi := RowsOf(before, tenant), RowsOf(behind, tenant);
    LinksOfConcat(lo, hi);
    LinksOfConcat(lo, [row]);
    LinksOfConcat(lo + [row], hi);
    PutInChain(hash, Links(lo), Link(FieldsOf(row.entry), row.chainHash), Links(hi));
    assert Links([row]) == [Link(FieldsOf(row.entry), row.chainHash)];
    LastHashIsTail(before, tenant);
    FollowsEitherIff(hash, row, seen, LastHash(before, tenant));
    if hi != [] {
      FirstBehind(hash, lo, hi);
      FollowsEitherIff(hash, hi[0], LastHash(before, tenant), row.chainHash);
    }
  }

  lemma FirstBehind(hash: string -> Digest, lo: seq<Row>, hi: seq<Row>)
    requires Chained(hash, LAYOUT, Links(lo + hi)) && hi != []
    ensures hi[0].chainHash == hash(Spelling(hi[0].entry, Tail(LAYOUT, Links(lo))))
  {
    var links, n := Links(lo + hi), |lo|;
    assert links[n].hash == hash(ContentAt(LAYOUT, links, n));
    assert links[..n] == Links(lo);
  }

  /** Over every interleaving and every order of ids: a tenant's rows, in the order of their ids, are a chain from
      genesis throughout exactly when no row came into the table behind another than the one it was sealed onto, or
      between two rows. */
  lemma {:induction false} AlwaysLinearIffNeverBreaks(hash: string -> Digest, events: seq<Event>, tenant: string)
    ensures AlwaysLinear(hash, events, tenant) <==> NeverBreaks(hash, events, tenant)
  {
    if events != [] {
      var shorter := events[..|events| - 1];
      AlwaysLinearIffNeverBreaks(hash, shorter, tenant);
      if AlwaysLinear(hash, shorter, tenant) {
        EventKeepsLinearIff(hash, After(hash, shorter), events[|events| - 1], tenant);
      }
    }
  }

  lemma {:induction false} StaysSorted(hash: string -> Digest, events: seq<Event>)
    ensures Sorted(After(hash, events).table)
  {
    if events != [] {
      var before, event := After(hash, events[..|events| - 1]), events[|events| - 1];
      StaysSorted(hash, events[..|events| - 1]);
      if Inserts(before, event) {
        PlacedStaysSorted(before.table, Stored(event.id, Seal(hash, event.entry, before.seen[event.task])));
      }
    }
  }

  lemma PlacedStaysSorted(table: seq<Stored>, stored: Stored)
    requires Sorted(table) && !IsTaken(table, stored.id)
    ensures var k := Place(table, stored.id); Sorted(table[..k] + [stored] + table[k..])
  {
    var k := Place(table, stored.id);
    var now := table[..k] + [stored] + table[k..];
    forall i | 0 <= i < |now| ensures now[i] == if i < k then table[i] else if i == k then stored else table[i - 1] {}
    assert forall i :: 0 <= i < |table| ==> table[i].id != stored.id;
  }

  ghost predicate HasLater(table: seq<Stored>, id: nat, tenant: string) {
    exists k :: 0 <= k < |table| && table[k].id > id && table[k].row.entry.tenant == tenant
  }

  lemma LaterRowIsBehind(table: seq<Stored>, id: nat, tenant: string)
    requires Sorted(table) && HasLater(table, id, tenant)
    ensures RowsOf(RowsIn(table[Place(table, id)..]), tenant) != []
  {
    var k := Place(table, id);
    var j :| 0 <= j < |table| && table[j].id > id && table[j].row.entry.tenant == tenant;
    assert RowsIn(table[k..])[j - k] == table[j].row;
    OwnRowIsThere(RowsIn(table[k..]), j - k, tenant);
  }

  /** Ids that come out of order break the chain: when a row of the tenant with a larger id is there already, an
      insert breaks it unless two digests agree that should not. */
  lemma LateIdBreaks(hash: string -> Digest, events: seq<Event>, event: Event, tenant: string)
    requires Inserts(After(hash, events), event) && event.entry.tenant == tenant
    requires HasLater(After(hash, events).table, event.id, tenant)
    ensures var store := After(hash, events);
            var k := Place(store.table, event.id);
            var last := LastHash(RowsIn(store.table[..k]), tenant);
            var row := Seal(hash, event.entry, store.seen[event.task]);
            var behind := RowsOf(RowsIn(store.table[k..]), tenant);
      && behind != []
      && (Breaks(hash, store, event, tenant)
          || row.chainHash == last || Clash(hash, behind[0].entry, last, row.chainHash))
  {
    StaysSorted(hash, events);
    LaterRowIsBehind(After(hash, events).table, event.id, tenant);
  }

  lemma {:induction false} OwnRowIsThere(rows: seq<Row>, k: nat, tenant: string)
    requires k < |rows| && rows[k].entry.tenant == tenant
    ensures RowsOf(rows, tenant) != []
    decreases |rows|
  {
    if k < |rows| - 1 { OwnRowIsThere(rows[..|rows| - 1], k, tenant); }
  }
}
