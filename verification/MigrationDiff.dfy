/** The data check around a migration (libs/kernel/tenant/src/lib/migration-orchestrator.service.ts,
    calculateDataDiff), and what its rollback is checked against. */
module MigrationDiff {
  import opened OperationTable
  import opened OperationHistory

  datatype Stats = Stats(count: int, checksum: string, structuralHash: string)

  datatype Kind = Missing | RowCount | Checksum | Structure

  datatype Violation = Violation(table: string, kind: Kind)

  predicate Violates(pre: map<string, Stats>, post: map<string, Stats>, v: Violation) {
    && v.table in pre
    && match v.kind
       case Missing => v.table !in post
       case RowCount => v.table in post && pre[v.table].count != post[v.table].count
       case Checksum => v.table in post && pre[v.table].checksum != post[v.table].checksum
       case Structure => v.table in post && pre[v.table].structuralHash != post[v.table].structuralHash
  }

  /** `tables` lists the keys of `pre`; the result holds each violation and nothing else. */
  method CalculateDataDiff(tables: seq<string>, pre: map<string, Stats>, post: map<string, Stats>)
    returns (violations: seq<Violation>)
    requires forall t :: t in tables <==> t in pre
    ensures forall v :: v in violations <==> Violates(pre, post, v)
  {
    violations := [];
    for k := 0 to |tables|
      invariant forall v :: v in violations <==> v.table in tables[..k] && Violates(pre, post, v)
    {
      var table := tables[k];
      ghost var before := violations;
      if table !in post {
        violations := violations + [Violation(table, Missing)];
      } else {
        if pre[table].count != post[table].count { violations := violations + [Violation(table, RowCount)]; }
        if pre[table].checksum != post[table].checksum { violations := violations + [Violation(table, Checksum)]; }
        if pre[table].structuralHash != post[table].structuralHash {
          violations := violations + [Violation(table, Structure)];
        }
      }
      forall v ensures v in violations <==> v in before || (v.table == table && Violates(pre, post, v)) {
        assert v.kind.Missing? || v.kind.RowCount? || v.kind.Checksum? || v.kind.Structure?;
      }
      assert forall t :: t in tables[..k + 1] <==> t in tables[..k] || t == table;
    }
    assert tables[..|tables|] == tables;
  }

  ghost predicate Passes(pre: map<string, Stats>, post: map<string, Stats>) {
    forall v :: !Violates(pre, post, v)
  }

  /** The check passes exactly when every table of before is still there unchanged; what is there besides does not
      matter. */
  lemma PassesIffKept(pre: map<string, Stats>, post: map<string, Stats>)
    ensures Passes(pre, post) <==> forall t :: t in pre ==> t in post && pre[t] == post[t]
  {
    if Passes(pre, post) {
      forall t | t in pre ensures t in post && pre[t] == post[t] {
        assert !Violates(pre, post, Violation(t, Missing));
        assert !Violates(pre, post, Violation(t, RowCount));
        assert !Violates(pre, post, Violation(t, Checksum));
        assert !Violates(pre, post, Violation(t, Structure));
      }
    }
  }

  /** Only in both directions would it tell whether the data is the same. */
  lemma PassesBothWaysIffSame(pre: map<string, Stats>, post: map<string, Stats>)
    ensures Passes(pre, post) && Passes(post, pre) <==> pre == post
  {
    PassesIffKept(pre, post);
    PassesIffKept(post, pre);
  }

  /** The statistics a migration can roll back against: they are saved with the third request of its script. */
  function RecordedStats(done: nat, stats: map<string, Stats>): map<string, Stats> {
    if done >= 3 then stats else map[]
  }

  lemma RecordedByThirdRequest(done: nat, stats: map<string, Stats>)
    requires done <= |MigrationScript|
    ensures RecordedStats(done, stats) ==
            if [Preparing, Validating, Validating] <= MigrationScript[..done] then stats else map[]
  {
    if done >= 3 { assert MigrationScript[..done][..3] == [Preparing, Validating, Validating]; }
  }

  /** That request is the second VALIDATING, which the table refuses. So a rollback, which runs the migrator down, is
      checked against nothing and passes whatever it has done to the data. */
  lemma RollbackCheckIsVacuous(log: Log, troubles: seq<Trouble>, stats: map<string, Stats>, after: map<string, Stats>)
    requires MigrationBound(log) && log.memory == log.saved && |troubles| == |MigrationScript|
    ensures Passes(RecordedStats(Drive(log, MigrationScript, troubles).1, stats), after)
  {
    assert MigrationScript[..|MigrationScript|] == MigrationScript;
    MigrationScriptStaysBound(log, |MigrationScript|, troubles);
  }
}
