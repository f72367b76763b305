/** The global hash-chained ledger of sensitive operations (libs/platform/audit/src/lib/audit-ledger.service.ts). */
module AuditLedger {
  import opened DelimitedText
  import opened HashChain

  const LAYOUT := Layout('|', 3, 1, true, "GENESIS")

  /** `iso` is the text of the row's timestamp and `createdAt` its milliseconds, by which the newest row is sought. */
  datatype Entry = Entry(tenant: string, user: string, action: string, details: string, iso: string, createdAt: nat)

  datatype Row = Row(entry: Entry, previousHash: string, hash: Digest)

  function FieldsOf(entry: Entry): Fields {
    Fields([entry.tenant, entry.user, entry.action], entry.details, [entry.iso])
  }

  predicate PipeFree(entry: Entry) {
    Fits(LAYOUT, FieldsOf(entry))
  }

  function Seal(hash: string -> Digest, entry: Entry, previousHash: string): Row {
    Row(entry, previousHash, hash(Content(LAYOUT, FieldsOf(entry), previousHash)))
  }

  function Links(rows: seq<Row>): seq<Link> {
    seq(|rows|, k requires 0 <= k < |rows| => Link(FieldsOf(rows[k].entry), rows[k].hash))
  }

  /** A row that `ORDER BY createdAt DESC` may put first. */
  predicate Newest(rows: seq<Row>, pick: nat) {
    pick < |rows| && forall k :: 0 <= k < |rows| ==> rows[k].entry.createdAt <= rows[pick].entry.createdAt
  }

  function PreviousHash(rows: seq<Row>, pick: nat): string {
    if pick < |rows| then rows[pick].hash else LAYOUT.genesis
  }

  /** One chain, and every row names its predecessor's hash. */
  ghost predicate OneChain(hash: string -> Digest, rows: seq<Row>) {
    && Chained(hash, LAYOUT, Links(rows))
    && forall k :: 0 <= k < |rows| ==> rows[k].previousHash == Tail(LAYOUT, Links(rows[..k]))
  }

  predicate RisingClock(rows: seq<Row>) {
    forall i, j :: 0 <= i < j < |rows| ==> rows[i].entry.createdAt < rows[j].entry.createdAt
  }

  /** The ledger, one transaction run without interruption; the database chooses among the rows that share the newest
      time. */
  class AuditLedgerService {
    var rows: seq<Row>

    method LogSensitiveOperation(hash: string -> Digest, entry: Entry, pick: nat)
      requires rows != [] ==> Newest(rows, pick)
      modifies this
      ensures rows == old(rows) + [Seal(hash, entry, PreviousHash(old(rows), pick))]
      ensures RisingClock(old(rows)) && OneChain(hash, old(rows)) ==> OneChain(hash, rows)
    {
      var previousHash := if pick < |rows| then rows[pick].hash else "GENESIS";
      var currentHash := hash(Content(LAYOUT, FieldsOf(entry), previousHash));
      ghost var before := rows;
      rows := rows + [Row(entry, previousHash, currentHash)];
      if RisingClock(before) && OneChain(hash, before) {
        AppendKeepsOneChain(hash, before, entry, previousHash);
        OneNewest(before, pick);
      }
    }
  }

  /** On a rising clock only the last row is newest. */
  lemma OneNewest(rows: seq<Row>, pick: nat)
    requires RisingClock(rows) && (rows != [] ==> Newest(rows, pick))
    ensures PreviousHash(rows, pick) == Tail(LAYOUT, Links(rows))
    ensures PreviousHash(rows, pick) == if rows == [] then "GENESIS" else rows[|rows| - 1].hash
  {
    if rows != [] {
      assert rows[|rows| - 1].entry.createdAt <= rows[pick].entry.createdAt;
    }
  }

  /** An append keeps the one chain exactly when it is sealed onto the last row's hash. */
  lemma AppendKeepsOneChain(hash: string -> Digest, rows: seq<Row>, entry: Entry, previousHash: string)
    requires OneChain(hash, rows)
    ensures OneChain(hash, rows + [Seal(hash, entry, previousHash)]) <==> previousHash == Tail(LAYOUT, Links(rows))
  {
    var row := Seal(hash, entry, previousHash);
    var more, n := rows + [row], |rows|;
    var link := Link(FieldsOf(entry), row.hash);
    assert Links(more) == Links(rows) + [link];
    AppendKeepsChain(hash, LAYOUT, Links(rows), link);
    assert more[..n] == rows && more[n] == row;
    forall k | 0 <= k < n ensures more[k].previousHash == Tail(LAYOUT, Links(more[..k])) {
      assert more[..k] == rows[..k];
    }
  }

  lemma BrokenStaysBroken(hash: string -> Digest, rows: seq<Row>, row: Row)
    requires !OneChain(hash, rows)
    ensures !OneChain(hash, rows + [row])
  {
    var more := rows + [row];
    if OneChain(hash, more) {
      assert Links(more)[..|rows|] == Links(rows);
      PrefixIsChained(hash, LAYOUT, Links(more), |rows|);
      forall k | 0 <= k < |rows| ensures rows[k].previousHash == Tail(LAYOUT, Links(rows[..k])) {
        assert more[k] == rows[k] && more[..k] == rows[..k];
      }
    }
  }

  // ----------------------------------------------------------------- transactions interleaved

  /** The hash a transaction found, and how many rows there were then. */
  datatype Seen = Seen(previousHash: string, count: nat)

  /** Transactions between their read and their insert. The row lock of the read does not keep others from reading
      the same row, nor any from reading an empty table, and it never makes one read again. */
  datatype World = World(rows: seq<Row>, seen: map<nat, Seen>)

  datatype Event = Read(transaction: nat, pick: nat) | Insert(transaction: nat, entry: Entry)

  function Next(hash: string -> Digest, world: World, event: Event): World {
    match event
    case Read(transaction, pick) =>
      world.(seen := world.seen[transaction := Seen(PreviousHash(world.rows, pick), |world.rows|)])
    case Insert(transaction, entry) =>
      if transaction !in world.seen then world
      else World(world.rows + [Seal(hash, entry, world.seen[transaction].previousHash)], world.seen - {transaction})
  }

  const EMPTY := World([], map[])

  function After(hash: string -> Digest, events: seq<Event>): World {
    if events == [] then EMPTY else Next(hash, After(hash, events[..|events| - 1]), events[|events| - 1])
  }

  predicate Stale(world: World, event: Event) {
    && event.Insert? && event.transaction in world.seen
    && world.seen[event.transaction].previousHash != Tail(LAYOUT, Links(world.rows))
  }

  ghost predicate NeverStale(hash: string -> Digest, events: seq<Event>) {
    events != [] ==>
      NeverStale(hash, events[..|events| - 1]) && !Stale(After(hash, events[..|events| - 1]), events[|events| - 1])
  }

  /** Over every interleaving the ledger is one chain, each row naming its predecessor, exactly when no insert was
      stale. */
  lemma {:induction false} OneChainIffNeverStale(hash: string -> Digest, events: seq<Event>)
    ensures OneChain(hash, After(hash, events).rows) <==> NeverStale(hash, events)
  {
    if events != [] {
      var shorter, event := events[..|events| - 1], events[|events| - 1];
      OneChainIffNeverStale(hash, shorter);
      var world := After(hash, shorter);
      if event.Insert? && event.transaction in world.seen {
        var previousHash := world.seen[event.transaction].previousHash;
        if OneChain(hash, world.rows) {
          AppendKeepsOneChain(hash, world.rows, event.entry, previousHash);
        } else {
          BrokenStaysBroken(hash, world.rows, Seal(hash, event.entry, previousHash));
        }
      }
    }
  }

  /** Every read picks a newest row. */
  ghost predicate Legal(hash: string -> Digest, events: seq<Event>) {
    events != [] ==>
      && Legal(hash, events[..|events| - 1])
      && var rows, event := After(hash, events[..|events| - 1]).rows, events[|events| - 1];
      event.Read? && rows != [] ==> Newest(rows, event.pick)
  }

  /** Nothing is inserted between a transaction's read and its insert. */
  ghost predicate Undisturbed(hash: string -> Digest, events: seq<Event>) {
    events != [] ==>
      && Undisturbed(hash, events[..|events| - 1])
      && var world, event := After(hash, events[..|events| - 1]), events[|events| - 1];
      event.Insert? && event.transaction in world.seen ==> world.seen[event.transaction].count == |world.rows|
  }

  /** What a transaction saw is the tail as long as nothing has been inserted since. */
  ghost predicate SeesTail(world: World) {
    forall t :: t in world.seen ==>
      world.seen[t].count <= |world.rows|
          && (world.seen[t].count == |world.rows| ==> world.seen[t].previousHash == Tail(LAYOUT, Links(world.rows)))
  }

  lemma ShorterRises(hash: string -> Digest, world: World, event: Event)
    requires RisingClock(Next(hash, world, event).rows)
    ensures RisingClock(world.rows)
  {
    var more := Next(hash, world, event).rows;
    forall i, j | 0 <= i < j < |world.rows| ensures world.rows[i].entry.createdAt < world.rows[j].entry.createdAt {
      assert more[i] == world.rows[i] && more[j] == world.rows[j];
    }
  }

  /** When nothing is inserted between a transaction's read and its insert and the rows' times rise, the ledger is
      one chain, whatever the database picks among equals. */
  lemma {:induction false} RisingClockMakesOneChain(hash: string -> Digest, events: seq<Event>)
    requires Legal(hash, events) && Undisturbed(hash, events) && RisingClock(After(hash, events).rows)
    ensures NeverStale(hash, events) && SeesTail(After(hash, events)) && OneChain(hash, After(hash, events).rows)
  {
    if events != [] {
      var shorter, event := events[..|events| - 1], events[|events| - 1];
      var world := After(hash, shorter);
      ShorterRises(hash, world, event);
      RisingClockMakesOneChain(hash, shorter);
      if event.Read? { OneNewest(world.rows, event.pick); }
    }
    OneChainIffNeverStale(hash, events);
  }

  lemma Unfold(hash: string -> Digest, events: seq<Event>, k: nat)
    requires k < |events|
    ensures After(hash, events[..k + 1]) == Next(hash, After(hash, events[..k]), events[k])
  {
    assert events[..k + 1][..k] == events[..k];
  }

  lemma TwoMore(hash: string -> Digest, events: seq<Event>, a: Event, b: Event)
    ensures After(hash, events + [a, b]) == Next(hash, Next(hash, After(hash, events), a), b)
  {
    var more, n := events + [a, b], |events|;
    Unfold(hash, more, n);
    Unfold(hash, more, n + 1);
    assert more[..n] == events && more[..n + 2] == more;
  }

  /** One whole transaction. */
  function Whole(transaction: nat, pick: nat, entry: Entry): seq<Event> {
    [Read(transaction, pick), Insert(transaction, entry)]
  }

  lemma WholeAppends(hash: string -> Digest, events: seq<Event>, transaction: nat, pick: nat, entry: Entry)
    requires Legal(hash, events) && Undisturbed(hash, events)
    requires var rows := After(hash, events).rows; rows != [] ==> Newest(rows, pick)
    ensures var more, rows := events + Whole(transaction, pick, entry), After(hash, events).rows;
      && After(hash, more).rows == rows + [Seal(hash, entry, PreviousHash(rows, pick))]
      && Legal(hash, more) && Undisturbed(hash, more)
  {
    var read, insert := Read(transaction, pick), Insert(transaction, entry);
    TwoMore(hash, events, read, insert);
    var more, n := events + [read, insert], |events|;
    assert more[..n + 1][..n] == events && more[..|more| - 1] == more[..n + 1];
    Unfold(hash, more, n);
    assert more[..n] == events;
  }

  /** Two rows in one millisecond: the database may pick the first of them again, and the ledger forks although
      nothing overlaps. */
  lemma SameMillisecondForks(hash: string -> Digest, first: Entry, second: Entry, third: Entry)
    requires first.createdAt == second.createdAt
    requires Seal(hash, first, LAYOUT.genesis).hash != Seal(hash, second, Seal(hash, first, LAYOUT.genesis).hash).hash
    ensures var events := Whole(1, 0, first) + Whole(2, 0, second) + Whole(3, 0, third);
            Legal(hash, events) && Undisturbed(hash, events) && !OneChain(hash, After(hash, events).rows)
  {
    var row1 := Seal(hash, first, LAYOUT.genesis);
    var row2 := Seal(hash, second, row1.hash);
    WholeAppends(hash, [], 1, 0, first);
    assert [] + Whole(1, 0, first) == Whole(1, 0, first);
    WholeAppends(hash, Whole(1, 0, first), 2, 0, second);
    WholeAppends(hash, Whole(1, 0, first) + Whole(2, 0, second), 3, 0, third);
    var rows := After(hash, Whole(1, 0, first) + Whole(2, 0, second) + Whole(3, 0, third)).rows;
    assert rows == [row1, row2, Seal(hash, third, row1.hash)];
    TwiceNamedForks(hash, rows);
  }

  /** A row that does not name its predecessor's hash breaks the chain. */
  lemma TwiceNamedForks(hash: string -> Digest, rows: seq<Row>)
    requires |rows| >= 2 && rows[|rows| - 1].previousHash != rows[|rows| - 2].hash
    ensures !OneChain(hash, rows)
  {
    var n := |rows| - 1;
    assert Tail(LAYOUT, Links(rows[..n])) == rows[n - 1].hash;
  }

  /** Two overlapping transactions fork the ledger even on a rising clock. */
  lemma OverlappingTransactionsFork(hash: string -> Digest, first: Entry, second: Entry)
    ensures var events := [Read(1, 0), Read(2, 0), Insert(1, first), Insert(2, second)];
            !OneChain(hash, After(hash, events).rows)
  {
    var read1, read2, insert1, insert2 := Read(1, 0), Read(2, 0), Insert(1, first), Insert(2, second);
    TwoMore(hash, [], read1, read2);
    assert [] + [read1, read2] == [read1, read2]
        && [read1, read2] + [insert1, insert2] == [read1, read2, insert1, insert2];
    TwoMore(hash, [read1, read2], insert1, insert2);
    var rows := After(hash, [read1, read2, insert1, insert2]).rows;
    assert rows == [Seal(hash, first, LAYOUT.genesis), Seal(hash, second, LAYOUT.genesis)];
    assert |rows[0].hash| == 64;
    TwiceNamedForks(hash, rows);
  }

  // ----------------------------------------------------------------- tamper evidence

  /** Two ledgers, each one chain of rows without stray pipes: their last hashes agree exactly when their rows say
      the same, short of a collision. */
  lemma LastHashDeterminesLedger(hash: string -> Digest, xs: seq<Row>, ys: seq<Row>)
    requires OneChain(hash, xs) && OneChain(hash, ys)
    requires forall k :: 0 <= k < |xs| ==> PipeFree(xs[k].entry)
    requires forall k :: 0 <= k < |ys| ==> PipeFree(ys[k].entry)
    requires !Collide(hash, LAYOUT, Links(xs), Links(ys))
    ensures Tail(LAYOUT, Links(xs)) == Tail(LAYOUT, Links(ys)) <==> Links(xs) == Links(ys)
  {
    TailsAgreeIffHistoriesDo(hash, LAYOUT, Links(xs), Links(ys));
  }

  /** The hashed string, spelled out. */
  lemma SpelledOut(entry: Entry, previousHash: string)
    ensures Content(LAYOUT, FieldsOf(entry), previousHash) ==
            previousHash + "|" + entry.tenant + "|" + entry.user + "|" + entry.action + "|" + entry.details + "|"
                + entry.iso
  {
    assert [previousHash] + FieldsOf(entry).left == [previousHash, entry.tenant, entry.user, entry.action];
    BeforeFour('|', previousHash, entry.tenant, entry.user, entry.action);
    BehindOne('|', entry.iso);
  }

  /** Nothing keeps a pipe out of a user or action, and then two different rows are hashed from one string. */
  lemma PipesMakeRowsAlike(entry: Entry, a: string, b: string, c: string, previousHash: string)
    ensures Content(LAYOUT, FieldsOf(entry.(user := a + "|" + b, action := c)), previousHash)
         == Content(LAYOUT, FieldsOf(entry.(user := a, action := b + "|" + c)), previousHash)
  {
    SpelledOut(entry.(user := a + "|" + b, action := c), previousHash);
    SpelledOut(entry.(user := a, action := b + "|" + c), previousHash);
  }
}
