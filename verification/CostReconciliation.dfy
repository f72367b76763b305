/** Cloud costs set against expected costs (libs/domain/finops/application/src/lib/cost-reconciliation.service.ts). */
module CostReconciliation {
  import opened Base64Url
  import opened DelimitedText
  import opened Summation
  import opened Wrappers

  /** A cloud or an internal record with its actual or expected cost. */
  datatype Record = Record(timestamp: string, tenant: string, region: string, mode: string, cost: real)

  datatype Status = Ok | Warn | Block

  datatype Bucket = Bucket(key: string, cloud: real, expected: real, tenant: string, region: string, mode: string,
                           drift: real, status: Status)

  /** What the map holds for a key while the records are added up. */
  datatype Sums = Sums(cloud: real, expected: real, tenant: string, region: string, mode: string)

  function Day(timestamp: string): string {
    if |timestamp| <= 10 then timestamp else timestamp[..10]
  }

  /** The day of an ISO timestamp is its date. */
  lemma DayIsDate(date: string, time: string)
    requires |date| == 10
    ensures Day(date + time) == date
  {
  }

  function Key(r: Record): string {
    Text('|', [r.tenant, r.region, r.mode], Day(r.timestamp), [])
  }

  function CostOf(r: Record): real {
    r.cost
  }

  function SumAt(records: seq<Record>, key: string): real {
    SumBy(records, At(CostOf, Key, key))
  }

  /** The first record of a key: it names the bucket's tenant, region and mode. */
  function First(records: seq<Record>, key: string): Option<Record> {
    if records == [] then None
    else
      var earlier, last := First(records[..|records| - 1], key), records[|records| - 1];
      if earlier.Some? || Key(last) != key then earlier else Some(last)
  }

  function SumsFor(cloud: seq<Record>, internal: seq<Record>, key: string): Sums
    requires First(cloud + internal, key).Some?
  {
    var r := First(cloud + internal, key).value;
    Sums(SumAt(cloud, key), SumAt(internal, key), r.tenant, r.region, r.mode)
  }

  function Abs(x: real): real {
    if x < 0.0 then -x else x
  }

  function Drift(cloud: real, expected: real): real {
    Abs(cloud - expected) / if cloud < 0.01 then 0.01 else cloud
  }

  function StatusOf(drift: real, warn: real, block: real): Status {
    if drift > block then Block else if drift > warn then Warn else Ok
  }

  function BucketOf(key: string, sums: Sums, warn: real, block: real): Bucket {
    var drift := Drift(sums.cloud, sums.expected);
    Bucket(key, sums.cloud, sums.expected, sums.tenant, sums.region, sums.mode, drift, StatusOf(drift, warn, block))
  }

  ghost predicate TalliedAt(sums: map<string, Sums>, order: seq<string>, cloud: seq<Record>, internal: seq<Record>,
                            key: string) {
    && (key in order <==> key in sums)
    && (key in sums <==> First(cloud + internal, key).Some?)
    && (key in sums ==> sums[key] == SumsFor(cloud, internal, key))
  }

  /** `order` lists the keys of the map in the order of their first insertion. */
  ghost predicate Tallied(sums: map<string, Sums>, order: seq<string>, cloud: seq<Record>, internal: seq<Record>) {
    Distinct(order) && forall key :: TalliedAt(sums, order, cloud, internal, key)
  }

  ghost predicate IsReconciliation(buckets: seq<Bucket>, cloud: seq<Record>, internal: seq<Record>, warn: real,
                                   block: real) {
    && (forall i, j :: 0 <= i < j < |buckets| ==> buckets[i].key != buckets[j].key)
    && (forall i :: 0 <= i < |buckets| ==>
          && First(cloud + internal, buckets[i].key).Some?
          && buckets[i] == BucketOf(buckets[i].key, SumsFor(cloud, internal, buckets[i].key), warn, block))
    && (forall key :: First(cloud + internal, key).Some? ==> exists i :: 0 <= i < |buckets| && buckets[i].key == key)
  }

  predicate IsReconciledPoint(b: Bucket) {
    b.status != Block && b.cloud > 0.0 && b.expected > 0.0
  }

  function Points(buckets: seq<Bucket>): nat {
    if buckets == [] then 0
    else Points(buckets[..|buckets| - 1]) + if IsReconciledPoint(buckets[|buckets| - 1]) then 1 else 0
  }

  /** The keys for which a finding is reported: incidents for blocking drift, reviews for warnings. */
  function KeysWith(buckets: seq<Bucket>, status: Status): seq<string> {
    if buckets == [] then []
    else
      var last := buckets[|buckets| - 1];
      KeysWith(buckets[..|buckets| - 1], status) + if last.status == status then [last.key] else []
  }

  lemma FirstOfMore(records: seq<Record>, last: Record, key: string)
    ensures First(records + [last], key) ==
            if First(records, key).Some? || Key(last) != key then First(records, key) else Some(last)
  {
    assert (records + [last])[..|records|] == records;
  }

  lemma {:induction false} NoFirstNoSum(records: seq<Record>, key: string)
    requires First(records, key).None?
    ensures SumAt(records, key) == 0.0
  {
    if records != [] {
      NoFirstNoSum(records[..|records| - 1], key);
    }
  }

  lemma {:induction false} FirstOfConcat(xs: seq<Record>, ys: seq<Record>, key: string)
    ensures First(xs + ys, key) == if First(xs, key).Some? then First(xs, key) else First(ys, key)
  {
    if ys == [] {
      assert xs + ys == xs;
    } else {
      var n := |ys| - 1;
      FirstOfConcat(xs, ys[..n], key);
      assert (xs + ys)[..|xs + ys| - 1] == xs + ys[..n];
    }
  }

  lemma SumOfMore(records: seq<Record>, last: Record, key: string)
    ensures SumAt(records + [last], key) == SumAt(records, key) + if Key(last) == key then last.cost else 0.0
  {
    var share := At(CostOf, Key, key);
    SumOfConcat(records, [last], share);
    SumOfOne(last, share);
    assert share(last) == if Key(last) == key then CostOf(last) else 0.0;
  }

  /** The whole of `Map.get`, adding to one side, and `Map.set`. */
  function Added(sums: map<string, Sums>, r: Record, isCloud: bool): map<string, Sums> {
    var was := if Key(r) in sums then sums[Key(r)] else Sums(0.0, 0.0, r.tenant, r.region, r.mode);
    sums[Key(r) := if isCloud then was.(cloud := was.cloud + r.cost) else was.(expected := was.expected + r.cost)]
  }

  function Listed(order: seq<string>, key: string): seq<string> {
    if key in order then order else order + [key]
  }

  lemma CloudAddedAt(sums: map<string, Sums>, order: seq<string>, cloud: seq<Record>, r: Record, key: string)
    requires TalliedAt(sums, order, cloud, [], key) && TalliedAt(sums, order, cloud, [], Key(r))
    ensures TalliedAt(Added(sums, r, true), Listed(order, Key(r)), cloud + [r], [], key)
  {
    assert cloud + [] == cloud && (cloud + [r]) + [] == cloud + [r];
    FirstOfMore(cloud, r, key);
    SumOfMore(cloud, r, key);
    if First(cloud, key).None? { NoFirstNoSum(cloud, key); }
  }

  lemma InternalAddedAt(sums: map<string, Sums>, order: seq<string>, cloud: seq<Record>, internal: seq<Record>,
                        r: Record, key: string)
    requires TalliedAt(sums, order, cloud, internal, key) && TalliedAt(sums, order, cloud, internal, Key(r))
    ensures TalliedAt(Added(sums, r, false), Listed(order, Key(r)), cloud, internal + [r], key)
  {
    assert cloud + (internal + [r]) == (cloud + internal) + [r];
    FirstOfMore(cloud + internal, r, key);
    SumOfMore(internal, r, key);
    FirstOfConcat(cloud, internal, key);
    if First(cloud, key).None? { NoFirstNoSum(cloud, key); }
    if First(internal, key).None? { NoFirstNoSum(internal, key); }
  }

  lemma CloudAdded(sums: map<string, Sums>, order: seq<string>, cloud: seq<Record>, r: Record)
    requires Tallied(sums, order, cloud, [])
    ensures Tallied(Added(sums, r, true), Listed(order, Key(r)), cloud + [r], [])
  {
    forall key ensures TalliedAt(Added(sums, r, true), Listed(order, Key(r)), cloud + [r], [], key) {
      CloudAddedAt(sums, order, cloud, r, key);
    }
  }

  lemma InternalAdded(sums: map<string, Sums>, order: seq<string>, cloud: seq<Record>, internal: seq<Record>, r: Record)
    requires Tallied(sums, order, cloud, internal)
    ensures Tallied(Added(sums, r, false), Listed(order, Key(r)), cloud, internal + [r])
  {
    forall key ensures TalliedAt(Added(sums, r, false), Listed(order, Key(r)), cloud, internal + [r], key) {
      InternalAddedAt(sums, order, cloud, internal, r, key);
    }
  }

  method Reconcile(cloud: seq<Record>, internal: seq<Record>, warn: real, block: real)
    returns (buckets: seq<Bucket>, points: nat, incidents: seq<string>, reviews: seq<string>)
    ensures IsReconciliation(buckets, cloud, internal, warn, block)
    ensures points == Points(buckets) && incidents == KeysWith(buckets, Block) && reviews == KeysWith(buckets, Warn)
  {
    var byKey: map<string, Sums>, order: seq<string> := map[], [];
    for k := 0 to |cloud|
      invariant Tallied(byKey, order, cloud[..k], [])
    {
      CloudAdded(byKey, order, cloud[..k], cloud[k]);
      assert cloud[..k] + [cloud[k]] == cloud[..k + 1];
      byKey, order := Added(byKey, cloud[k], true), Listed(order, Key(cloud[k]));
    }
    assert cloud[..|cloud|] == cloud;
    for k := 0 to |internal|
      invariant Tallied(byKey, order, cloud, internal[..k])
    {
      InternalAdded(byKey, order, cloud, internal[..k], internal[k]);
      assert internal[..k] + [internal[k]] == internal[..k + 1];
      byKey, order := Added(byKey, internal[k], false), Listed(order, Key(internal[k]));
    }
    assert internal[..|internal|] == internal;
    assert forall key :: key in order ==> TalliedAt(byKey, order, cloud, internal, key);
    buckets, points, incidents, reviews := BuildBuckets(byKey, order, warn, block);
    BuiltIsReconciliation(buckets, order, byKey, cloud, internal, warn, block);
  }

  ghost predicate Built(buckets: seq<Bucket>, order: seq<string>, byKey: map<string, Sums>, warn: real, block: real) {
    && (forall key :: key in order ==> key in byKey)
    && |buckets| <= |order|
    && forall i :: 0 <= i < |buckets| ==> buckets[i] == BucketOf(order[i], byKey[order[i]], warn, block)
  }

  lemma BuiltIsReconciliation(buckets: seq<Bucket>, order: seq<string>, byKey: map<string, Sums>,
                              cloud: seq<Record>, internal: seq<Record>, warn: real, block: real)
    requires Tallied(byKey, order, cloud, internal)
    requires |buckets| == |order| && Built(buckets, order, byKey, warn, block)
    ensures IsReconciliation(buckets, cloud, internal, warn, block)
  {
    forall i | 0 <= i < |buckets|
      ensures First(cloud + internal, buckets[i].key).Some?
      ensures buckets[i] == BucketOf(buckets[i].key, SumsFor(cloud, internal, buckets[i].key), warn, block)
    {
      assert TalliedAt(byKey, order, cloud, internal, order[i]);
    }
    forall key | First(cloud + internal, key).Some? ensures exists i :: 0 <= i < |buckets| && buckets[i].key == key {
      assert TalliedAt(byKey, order, cloud, internal, key);
      var i :| 0 <= i < |order| && order[i] == key;
      assert buckets[i].key == key;
    }
  }

  method BuildBuckets(byKey: map<string, Sums>, order: seq<string>, warn: real, block: real)
    returns (buckets: seq<Bucket>, points: nat, incidents: seq<string>, reviews: seq<string>)
    requires forall key :: key in order ==> key in byKey
    ensures |buckets| == |order| && Built(buckets, order, byKey, warn, block)
    ensures points == Points(buckets) && incidents == KeysWith(buckets, Block) && reviews == KeysWith(buckets, Warn)
  {
    buckets, points, incidents, reviews := [], 0, [], [];
    for k := 0 to |order|
      invariant points == Points(buckets) && incidents == KeysWith(buckets, Block) && reviews == KeysWith(buckets, Warn)
      invariant |buckets| == k && Built(buckets, order, byKey, warn, block)
    {
      var bucket := BucketOf(order[k], byKey[order[k]], warn, block);
      assert (buckets + [bucket])[..k] == buckets;
      buckets := buckets + [bucket];
      if IsReconciledPoint(bucket) { points := points + 1; }
      if bucket.status == Block { incidents := incidents + [bucket.key]; }
      if bucket.status == Warn { reviews := reviews + [bucket.key]; }
    }
  }

  // ----------------------------------------------------------------- conservation and order

  function KeysOf(buckets: seq<Bucket>): seq<string> {
    seq(|buckets|, i requires 0 <= i < |buckets| => buckets[i].key)
  }

  lemma {:induction false} FirstIffPresent(records: seq<Record>, key: string)
    ensures First(records, key).Some? <==> exists k :: 0 <= k < |records| && Key(records[k]) == key
    ensures First(records, key).Some? ==> First(records, key).value in records && Key(First(records, key).value) == key
  {
    if records != [] {
      var n := |records| - 1;
      FirstIffPresent(records[..n], key);
      if First(records[..n], key).Some? {
        var k :| 0 <= k < n && Key(records[..n][k]) == key;
        assert Key(records[k]) == key;
      }
    }
  }

  lemma {:induction false} BucketSums(buckets: seq<Bucket>, records: seq<Record>, f: Bucket -> real)
    requires forall i :: 0 <= i < |buckets| ==> f(buckets[i]) == SumAt(records, buckets[i].key)
    ensures SumBy(buckets, f) == SumOverKeys(records, CostOf, Key, KeysOf(buckets))
  {
    if buckets != [] {
      var n := |buckets| - 1;
      BucketSums(buckets[..n], records, f);
      assert KeysOf(buckets)[..n] == KeysOf(buckets[..n]);
    }
  }

  /** No money is lost or counted twice: the buckets' cloud and expected costs add up to the records'. */
  lemma ReconciliationConserves(buckets: seq<Bucket>, cloud: seq<Record>, internal: seq<Record>, warn: real,
                                block: real)
    requires IsReconciliation(buckets, cloud, internal, warn, block)
    ensures SumBy(buckets, (b: Bucket) => b.cloud) == SumBy(cloud, CostOf)
    ensures SumBy(buckets, (b: Bucket) => b.expected) == SumBy(internal, CostOf)
  {
    var keys := KeysOf(buckets);
    forall r | r in cloud + internal ensures Key(r) in keys {
      FirstIffPresent(cloud + internal, Key(r));
      var i :| 0 <= i < |buckets| && buckets[i].key == Key(r);
      assert keys[i] == Key(r);
    }
    BucketSums(buckets, cloud, (b: Bucket) => b.cloud);
    BucketSums(buckets, internal, (b: Bucket) => b.expected);
    forall k | 0 <= k < |cloud| ensures Key(cloud[k]) in keys { assert cloud[k] in cloud + internal; }
    forall k | 0 <= k < |internal| ensures Key(internal[k]) in keys { assert internal[k] in cloud + internal; }
    KeysPartitionSum(cloud, CostOf, Key, keys);
    KeysPartitionSum(internal, CostOf, Key, keys);
  }

  predicate PipeFree(r: Record) {
    AllSepFree('|', [r.tenant, r.region, r.mode])
  }

  /** With pipe-free names two records share a bucket exactly when they are of one tenant, region, mode and day. */
  lemma OneBucketPerDay(r: Record, s: Record)
    requires PipeFree(r) && PipeFree(s)
    ensures Key(r) == Key(s) <==>
        r.tenant == s.tenant && r.region == s.region && r.mode == s.mode && Day(r.timestamp) == Day(s.timestamp)
  {
    TextIsUnique('|', [r.tenant, r.region, r.mode], Day(r.timestamp), [], [s.tenant, s.region, s.mode],
                 Day(s.timestamp), []);
    assert [r.tenant, r.region, r.mode] == [s.tenant, s.region, s.mode] ==>
        r.tenant == s.tenant && r.region == s.region && r.mode == s.mode by {
      if [r.tenant, r.region, r.mode] == [s.tenant, s.region, s.mode] {
        assert [r.tenant, r.region, r.mode][1] == [s.tenant, s.region, s.mode][1];
        assert [r.tenant, r.region, r.mode][2] == [s.tenant, s.region, s.mode][2];
        assert [r.tenant, r.region, r.mode][0] == [s.tenant, s.region, s.mode][0];
      }
    }
  }

  lemma BucketsCarryOver(
      xs: seq<Bucket>, cloud: seq<Record>, internal: seq<Record>,
      ys: seq<Bucket>, cloud': seq<Record>, internal': seq<Record>, warn: real, block: real)
    requires IsReconciliation(xs, cloud, internal, warn, block) && IsReconciliation(ys, cloud', internal', warn, block)
    requires multiset(cloud) == multiset(cloud') && multiset(internal) == multiset(internal')
    requires forall r :: r in cloud + internal ==> PipeFree(r)
    ensures forall b :: b in xs ==> b in ys
  {
    forall b | b in xs ensures b in ys {
      var first := First(cloud + internal, b.key).value;
      FirstIffPresent(cloud + internal, b.key);
      assert first in multiset(cloud') || first in multiset(internal');
      assert first in cloud' + internal';
      FirstIffPresent(cloud' + internal', b.key);
      var other := First(cloud' + internal', b.key).value;
      assert other in multiset(cloud) || other in multiset(internal);
      OneBucketPerDay(first, other);
      SumIgnoresOrder(cloud, cloud', At(CostOf, Key, b.key));
      SumIgnoresOrder(internal, internal', At(CostOf, Key, b.key));
      var i :| 0 <= i < |ys| && ys[i].key == b.key;
      assert ys[i] == b;
    }
  }

  /** The buckets, as a set, do not depend on the order of the records. */
  lemma BucketsIgnoreOrder(
      xs: seq<Bucket>, cloud: seq<Record>, internal: seq<Record>,
      ys: seq<Bucket>, cloud': seq<Record>, internal': seq<Record>, warn: real, block: real)
    requires IsReconciliation(xs, cloud, internal, warn, block) && IsReconciliation(ys, cloud', internal', warn, block)
    requires multiset(cloud) == multiset(cloud') && multiset(internal) == multiset(internal')
    requires forall r :: r in cloud + internal ==> PipeFree(r)
    ensures forall b :: b in xs <==> b in ys
  {
    BucketsCarryOver(xs, cloud, internal, ys, cloud', internal', warn, block);
    forall r | r in cloud' + internal' ensures PipeFree(r) {
      assert r in multiset(cloud) || r in multiset(internal);
      assert r in cloud + internal;
    }
    BucketsCarryOver(ys, cloud', internal', xs, cloud, internal, warn, block);
  }

  // ----------------------------------------------------------------- the claim and the adoption figures

  /** `evaluateClaimEligibility`. */
  function IsEligible(points: nat, minimum: nat, buckets: seq<Bucket>): bool {
    !(points < minimum) && !exists i :: 0 <= i < |buckets| && buckets[i].status == Block
  }

  function TwoSided(buckets: seq<Bucket>): nat {
    if buckets == [] then 0
    else
      var last := buckets[|buckets| - 1];
      TwoSided(buckets[..|buckets| - 1]) + if last.cloud > 0.0 && last.expected > 0.0 then 1 else 0
  }

  lemma {:induction false} PointsAreTwoSided(buckets: seq<Bucket>)
    requires forall i :: 0 <= i < |buckets| ==> buckets[i].status != Block
    ensures Points(buckets) == TwoSided(buckets)
  {
    if buckets != [] {
      PointsAreTwoSided(buckets[..|buckets| - 1]);
    }
  }

  /** The expected cost is within a share of the cloud cost, of at least a cent. */
  predicate Within(b: Bucket, share: real) {
    var margin := share * if b.cloud < 0.01 then 0.01 else b.cloud;
    b.cloud - margin <= b.expected <= b.cloud + margin
  }

  lemma RatioIff(x: real, y: real, share: real)
    requires y > 0.0
    ensures x / y <= share <==> x <= share * y
  {
    var ratio := x / y;
    assert x == ratio * y;
    assert ratio <= share ==> ratio * y <= share * y;
    assert ratio > share ==> ratio * y > share * y;
  }

  lemma DriftIff(b: Bucket, share: real)
    requires b.drift == Drift(b.cloud, b.expected)
    ensures b.drift <= share <==> Within(b, share)
  {
    RatioIff(Abs(b.cloud - b.expected), if b.cloud < 0.01 then 0.01 else b.cloud, share);
  }

  /** A commercial claim is eligible exactly when enough buckets have both costs, and in every bucket the expected
      cost is within the block threshold of the cloud cost. */
  lemma EligibleIff(buckets: seq<Bucket>, cloud: seq<Record>, internal: seq<Record>, warn: real, block: real,
                    minimum: nat)
    requires IsReconciliation(buckets, cloud, internal, warn, block)
    ensures IsEligible(Points(buckets), minimum, buckets) <==>
            TwoSided(buckets) >= minimum && forall i :: 0 <= i < |buckets| ==> Within(buckets[i], block)
  {
    forall i | 0 <= i < |buckets| ensures buckets[i].status == Block <==> !Within(buckets[i], block) {
      DriftIff(buckets[i], block);
    }
    if forall i :: 0 <= i < |buckets| ==> Within(buckets[i], block) {
      PointsAreTwoSided(buckets);
    }
  }

  lemma {:induction false} KeysWithIff(buckets: seq<Bucket>, status: Status, key: string)
    ensures key in KeysWith(buckets, status) <==>
        exists i :: 0 <= i < |buckets| && buckets[i].key == key && buckets[i].status == status
  {
    if buckets != [] {
      var n := |buckets| - 1;
      KeysWithIff(buckets[..n], status, key);
      if key in KeysWith(buckets[..n], status) {
        var i :| 0 <= i < n && buckets[..n][i].key == key && buckets[..n][i].status == status;
        assert buckets[i].key == key;
      }
    }
  }

  /** An incident is opened for exactly the keys whose expected cost is beyond the block threshold, so a claim is
      never eligible with one. */
  lemma IncidentIff(buckets: seq<Bucket>, cloud: seq<Record>, internal: seq<Record>, warn: real, block: real,
                    key: string)
    requires IsReconciliation(buckets, cloud, internal, warn, block)
    ensures key in KeysWith(buckets, Block) <==>
        exists i :: 0 <= i < |buckets| && buckets[i].key == key && !Within(buckets[i], block)
  {
    KeysWithIff(buckets, Block, key);
    forall i | 0 <= i < |buckets| ensures buckets[i].status == Block <==> !Within(buckets[i], block) {
      DriftIff(buckets[i], block);
    }
  }

  /** The three statuses by what was measured, whatever the order of the thresholds. */
  lemma StatusIff(b: Bucket, warn: real, block: real)
    requires b.drift == Drift(b.cloud, b.expected) && b.status == StatusOf(b.drift, warn, block)
    ensures b.status == Block <==> !Within(b, block)
    ensures b.status == Warn <==> Within(b, block) && !Within(b, warn)
    ensures b.status == Ok <==> Within(b, block) && Within(b, warn)
  {
    DriftIff(b, warn);
    DriftIff(b, block);
  }

  /** A reconciled point is a bucket with both costs whose expected cost is within the block threshold. */
  lemma PointIff(b: Bucket, warn: real, block: real)
    requires b.drift == Drift(b.cloud, b.expected) && b.status == StatusOf(b.drift, warn, block)
    ensures IsReconciledPoint(b) <==> Within(b, block) && b.cloud > 0.0 && b.expected > 0.0
  {
    StatusIff(b, warn, block);
  }

  /** A review is asked for exactly the keys whose expected cost is within the block threshold but beyond the
      warning. */
  lemma ReviewIff(buckets: seq<Bucket>, cloud: seq<Record>, internal: seq<Record>, warn: real, block: real, key: string)
    requires IsReconciliation(buckets, cloud, internal, warn, block)
    ensures key in KeysWith(buckets, Warn) <==>
        exists i :: 0 <= i < |buckets| && buckets[i].key == key
                    && Within(buckets[i], block) && !Within(buckets[i], warn)
  {
    KeysWithIff(buckets, Warn, key);
    forall i | 0 <= i < |buckets|
      ensures buckets[i].status == Warn <==> Within(buckets[i], block) && !Within(buckets[i], warn)
    {
      StatusIff(buckets[i], warn, block);
    }
  }

  lemma {:induction false} FlaggedAreNotOk(buckets: seq<Bucket>, b: Bucket)
    ensures b in Flagged(buckets) <==> b in buckets && b.status != Ok
  {
    if buckets != [] {
      var n := |buckets| - 1;
      FlaggedAreNotOk(buckets[..n], b);
      assert buckets == buckets[..n] + [buckets[n]];
    }
  }

  /** A recommendation is made for exactly the buckets beyond one of the two thresholds. */
  lemma FlaggedIff(buckets: seq<Bucket>, cloud: seq<Record>, internal: seq<Record>, warn: real, block: real, b: Bucket)
    requires IsReconciliation(buckets, cloud, internal, warn, block)
    ensures b in Flagged(buckets) <==> b in buckets && !(Within(b, warn) && Within(b, block))
  {
    FlaggedAreNotOk(buckets, b);
    if b in buckets {
      var i :| 0 <= i < |buckets| && buckets[i] == b;
      StatusIff(buckets[i], warn, block);
    }
  }

  /** A recommendation's id: sixteen characters of the key's base64 text. */
  function RecommendationId(key: string): string {
    "rec-" + Take(Letters(Sextets(Utf8(key))), 16)
  }

  /** The buckets that get a recommendation. */
  function Flagged(buckets: seq<Bucket>): seq<Bucket> {
    if buckets == [] then []
    else
      var last := buckets[|buckets| - 1];
      Flagged(buckets[..|buckets| - 1]) + if last.status != Ok then [last] else []
  }

  function Recommendations(buckets: seq<Bucket>): seq<string> {
    var flagged := Flagged(buckets);
    seq(|flagged|, i requires 0 <= i < |flagged| => RecommendationId(flagged[i].key))
  }

  function Adopted(claimed: seq<string>, ids: seq<string>): set<string> {
    set id | id in claimed && id in ids
  }

  function ElementsOf(ids: seq<string>): set<string> {
    set id | id in ids
  }

  lemma {:induction false} ElementCount(ids: seq<string>)
    ensures |ElementsOf(ids)| <= |ids|
    ensures |ElementsOf(ids)| == |ids| <==> Distinct(ids)
  {
    if ids == [] {
      assert ElementsOf(ids) == {};
    } else {
      var n := |ids| - 1;
      ElementCount(ids[..n]);
      assert ids == ids[..n] + [ids[n]];
      assert ElementsOf(ids) == ElementsOf(ids[..n]) + {ids[n]};
      if ids[n] in ids[..n] {
        var k :| 0 <= k < n && ids[..n][k] == ids[n];
        assert ids[k] == ids[n];
        assert ElementsOf(ids) == ElementsOf(ids[..n]);
      } else {
        assert Distinct(ids) <==> Distinct(ids[..n]);
      }
    }
  }

  /** No more is adopted than tracked, and everything tracked counts as adopted exactly when no two ids collide and
      each is claimed. */
  lemma AdoptedWithinTracked(claimed: seq<string>, ids: seq<string>)
    ensures |Adopted(claimed, ids)| <= |ids|
    ensures |Adopted(claimed, ids)| == |ids| <==> Distinct(ids) && forall id :: id in ids ==> id in claimed
  {
    ElementCount(ids);
    SubsetCount(Adopted(claimed, ids), ElementsOf(ids));
    if |Adopted(claimed, ids)| == |ids| {
      assert Adopted(claimed, ids) == ElementsOf(ids);
      forall id | id in ids ensures id in claimed { assert id in ElementsOf(ids); }
    } else if forall id :: id in ids ==> id in claimed {
      assert Adopted(claimed, ids) == ElementsOf(ids);
    }
  }

  lemma SubsetCount(a: set<string>, b: set<string>)
    requires a <= b
    ensures |a| <= |b| && (|a| == |b| <==> a == b)
  {
    assert b == a + (b - a);
    assert |b| == |a| + |b - a|;
  }

  /** Two keys get one id exactly when their first twelve bytes agree. */
  lemma IdsCollideIff(a: string, b: string)
    ensures "rec-" <= RecommendationId(a) && |RecommendationId(a)| <= 20
    ensures RecommendationId(a) == RecommendationId(b) <==> Take(Utf8(a), 12) == Take(Utf8(b), 12)
  {
    SixteenLettersIff(Utf8(a), Utf8(b));
    assert RecommendationId(a)[4..] == Take(Letters(Sextets(Utf8(a))), 16);
    assert RecommendationId(b)[4..] == Take(Letters(Sextets(Utf8(b))), 16);
  }

  predicate KeysTellApart(buckets: seq<Bucket>) {
    forall i, j :: 0 <= i < j < |buckets| ==> Take(Utf8(buckets[i].key), 12) != Take(Utf8(buckets[j].key), 12)
  }

  lemma DistinctIdsIff(buckets: seq<Bucket>)
    ensures Distinct(Recommendations(buckets)) <==> KeysTellApart(Flagged(buckets))
  {
    var flagged, ids := Flagged(buckets), Recommendations(buckets);
    forall i, j | 0 <= i < j < |flagged|
      ensures ids[i] == ids[j] <==> Take(Utf8(flagged[i].key), 12) == Take(Utf8(flagged[j].key), 12)
    {
      IdsCollideIff(flagged[i].key, flagged[j].key);
    }
  }

  /** Everything recommended counts as adopted exactly when the first twelve bytes tell the flagged buckets' keys
      apart and every id is claimed; and never is more adopted than recommended. */
  lemma AdoptionIsCompleteIff(claimed: seq<string>, buckets: seq<Bucket>)
    ensures var ids := Recommendations(buckets);
      && |Adopted(claimed, ids)| <= |ids|
      && (|Adopted(claimed, ids)| == |ids| <==>
            KeysTellApart(Flagged(buckets)) && forall id :: id in ids ==> id in claimed)
  {
    AdoptedWithinTracked(claimed, Recommendations(buckets));
    DistinctIdsIff(buckets);
  }

  lemma KeyStartsWithTenant(r: Record)
    ensures Utf8(r.tenant) <= Utf8(Key(r))
  {
    var rest := ['|'] + Before('|', [r.tenant, r.region, r.mode][1..]) + Day(r.timestamp);
    assert Key(r) == r.tenant + rest;
    Utf8OfConcat(r.tenant, rest);
  }

  /** Two flagged buckets of a tenant whose name fills twelve bytes always collide, so the tenant's adoption can
      never be complete. */
  lemma LongTenantNamesCollide(buckets: seq<Bucket>, cloud: seq<Record>, internal: seq<Record>, warn: real, block: real,
                               i: nat, j: nat, claimed: seq<string>)
    requires IsReconciliation(buckets, cloud, internal, warn, block)
    requires i < j < |Flagged(buckets)|
    requires var flagged := Flagged(buckets); flagged[i].tenant == flagged[j].tenant && |Utf8(flagged[i].tenant)| >= 12
    ensures RecommendationId(Flagged(buckets)[i].key) == RecommendationId(Flagged(buckets)[j].key)
    ensures |Adopted(claimed, Recommendations(buckets))| < |Recommendations(buckets)|
  {
    var flagged := Flagged(buckets);
    FlaggedAreBuckets(buckets);
    BucketKeyStartsWithTenant(buckets, cloud, internal, warn, block, flagged[i]);
    BucketKeyStartsWithTenant(buckets, cloud, internal, warn, block, flagged[j]);
    assert Take(Utf8(flagged[i].key), 12) == Utf8(flagged[i].tenant)[..12] == Take(Utf8(flagged[j].key), 12);
    IdsCollideIff(flagged[i].key, flagged[j].key);
    AdoptionIsCompleteIff(claimed, buckets);
  }

  lemma {:induction false} FlaggedAreBuckets(buckets: seq<Bucket>)
    ensures forall b :: b in Flagged(buckets) ==> b in buckets
  {
    if buckets != [] {
      FlaggedAreBuckets(buckets[..|buckets| - 1]);
    }
  }

  lemma BucketKeyStartsWithTenant(buckets: seq<Bucket>, cloud: seq<Record>, internal: seq<Record>, warn: real,
                                  block: real, b: Bucket)
    requires IsReconciliation(buckets, cloud, internal, warn, block) && b in buckets
    ensures Utf8(b.tenant) <= Utf8(b.key)
  {
    FirstIffPresent(cloud + internal, b.key);
    KeyStartsWithTenant(First(cloud + internal, b.key).value);
  }
}
