/** The offline table of materialized vectors (`offline_store.py`). */
module OfflineStore {
  import opened Sequences
  import opened Sorting
  import opened FeatureModel

  datatype Row = Row(runId: string, vector: Vector)

  /** PRIMARY KEY(entity_scope, ts, feature_set_name, feature_set_version, lineage_id). */
  predicate SameKey(a: Vector, b: Vector) {
    a.scope == b.scope && a.ts == b.ts && a.setName == b.setName && a.setVersion == b.setVersion
      && a.lineage == b.lineage
  }

  function OtherKey(v: Vector): Row -> bool {
    (r: Row) => !SameKey(r.vector, v)
  }

  /** `INSERT OR REPLACE`. */
  function PutRow(rows: seq<Row>, row: Row): seq<Row> {
    Filter(rows, OtherKey(row.vector)) + [row]
  }

  function PutAll(rows: seq<Row>, vectors: seq<Vector>, runId: string): seq<Row> {
    if vectors == [] then rows
    else PutRow(PutAll(rows, vectors[..|vectors| - 1], runId), Row(runId, vectors[|vectors| - 1]))
  }

  ghost predicate DistinctKeys(rows: seq<Row>) {
    forall i, j :: 0 <= i < j < |rows| ==> !SameKey(rows[i].vector, rows[j].vector)
  }

  predicate RunLe(a: Row, b: Row) {
    if a.vector.symbol != b.vector.symbol then StringLe(a.vector.symbol, b.vector.symbol)
    else StampLe(a, b)
  }

  predicate StampLe(a: Row, b: Row) {
    a.vector.ts < b.vector.ts || (a.vector.ts == b.vector.ts && a.vector.availableTs <= b.vector.availableTs)
  }

  function OfRun(runId: string): Row -> bool {
    (r: Row) => r.runId == runId
  }

  function VectorsOf(rows: seq<Row>): (r: seq<Vector>)
    ensures |r| == |rows|
  {
    seq(|rows|, i requires 0 <= i < |rows| => rows[i].vector)
  }

  /** A vector of the wanted set and scope that was known at the decision time. */
  datatype Query = Query(scope: Scope, setName: string, setVersion: string, decisionTs: int)

  function Servable(q: Query): Row -> bool {
    (r: Row) => r.vector.scope == q.scope && r.vector.setName == q.setName && r.vector.setVersion == q.setVersion
      && r.vector.availableTs <= q.decisionTs && r.vector.ts <= q.decisionTs
  }

  /** `ORDER BY ts DESC, available_ts DESC LIMIT 1` over the servable rows. */
  function PointInTime(rows: seq<Row>, q: Query): Option<Row> {
    var found := Sort(Filter(rows, Servable(q)), StampLe);
    if found == [] then None else Some(found[|found| - 1])
  }

  lemma StampOrder()
    ensures TotalPreorder(StampLe)
  {
  }

  ghost predicate IsGreatest(rows: seq<Row>, q: Query, best: Row) {
    best in rows && Servable(q)(best) && forall r :: r in rows && Servable(q)(r) ==> StampLe(r, best)
  }

  /** The answer is a greatest servable row, and there is none only if nothing was servable. */
  lemma PointInTimeIsGreatest(rows: seq<Row>, q: Query)
    ensures PointInTime(rows, q).Some? ==> IsGreatest(rows, q, PointInTime(rows, q).value)
    ensures PointInTime(rows, q).None? ==> forall r :: r in rows ==> !Servable(q)(r)
  {
    var kept := Filter(rows, Servable(q));
    FilterKeeps(rows, Servable(q));
    if kept != [] {
      NewestRow(kept);
    } else {
      forall r | r in rows ensures !Servable(q)(r) {
        assert r !in kept;
      }
    }
  }

  lemma NewestRow(rows: seq<Row>)
    requires rows != []
    ensures Sort(rows, StampLe)[|rows| - 1] in rows
    ensures forall r :: r in rows ==> StampLe(r, Sort(rows, StampLe)[|rows| - 1])
  {
    StampOrder();
    SortGreatest(rows, StampLe);
  }

  lemma {:induction false} PutKeepsDistinct(rows: seq<Row>, row: Row)
    requires DistinctKeys(rows)
    ensures DistinctKeys(PutRow(rows, row))
  {
    FilterDistinct(rows, OtherKey(row.vector));
    var kept := Filter(rows, OtherKey(row.vector));
    forall i | 0 <= i < |kept| ensures !SameKey(kept[i].vector, row.vector) {
      FilterMembers(rows, OtherKey(row.vector), kept[i]);
    }
  }

  lemma {:induction false} FilterDistinct(rows: seq<Row>, p: Row -> bool)
    requires DistinctKeys(rows)
    ensures DistinctKeys(Filter(rows, p))
  {
    if rows != [] {
      FilterDistinct(rows[1..], p);
      var rest := Filter(rows[1..], p);
      forall j | 0 <= j < |rest| ensures !SameKey(rows[0].vector, rest[j].vector) {
        FilterMembers(rows[1..], p, rest[j]);
      }
    }
  }

  function PutRows(rows: seq<Row>, puts: seq<Row>): seq<Row> {
    if puts == [] then rows else PutRow(PutRows(rows, puts[..|puts| - 1]), puts[|puts| - 1])
  }

  ghost predicate Overwritten(row: Row, puts: seq<Row>) {
    exists i :: 0 <= i < |puts| && SameKey(row.vector, puts[i].vector)
  }

  lemma OverwrittenNext(row: Row, puts: seq<Row>)
    requires puts != []
    ensures Overwritten(row, puts)
       <==> Overwritten(row, puts[..|puts| - 1]) || SameKey(row.vector, puts[|puts| - 1].vector)
  {
    var front := puts[..|puts| - 1];
    if Overwritten(row, puts) {
      var i :| 0 <= i < |puts| && SameKey(row.vector, puts[i].vector);
      assert i < |front| ==> SameKey(row.vector, front[i].vector);
    }
    if Overwritten(row, front) {
      var i :| 0 <= i < |front| && SameKey(row.vector, front[i].vector);
      assert SameKey(row.vector, puts[i].vector);
    }
  }

  ghost predicate NoneServable(puts: seq<Row>, q: Query) {
    forall i :: 0 <= i < |puts| ==> !Servable(q)(puts[i])
  }

  function NotOverwritten(puts: seq<Row>): Row -> bool {
    (r: Row) => forall i :: 0 <= i < |puts| ==> !SameKey(r.vector, puts[i].vector)
  }

  /** Later unservable puts leave the servable rows they do not overwrite, in order. */
  lemma {:induction false} ServableAfterPuts(rows: seq<Row>, puts: seq<Row>, q: Query)
    requires NoneServable(puts, q)
    ensures Filter(PutRows(rows, puts), Servable(q)) == Filter(Filter(rows, Servable(q)), NotOverwritten(puts))
  {
    var all := Filter(rows, Servable(q));
    if puts == [] {
      FilterAll(all, NotOverwritten(puts));
    } else {
      var front, last := puts[..|puts| - 1], puts[|puts| - 1];
      var before := PutRows(rows, front);
      ServableAfterPuts(rows, front, q);
      FilterAppend(Filter(before, OtherKey(last.vector)), [last], Servable(q));
      FilterOne(last, Servable(q));
      SwapFilters(before, OtherKey(last.vector), Servable(q));
      NotOverwrittenNext(all, puts);
      assert Filter(Filter(before, OtherKey(last.vector)), Servable(q)) + []
        == Filter(Filter(before, OtherKey(last.vector)), Servable(q));
    }
  }

  lemma NotOverwrittenNext(all: seq<Row>, puts: seq<Row>)
    requires puts != []
    ensures Filter(Filter(all, NotOverwritten(puts[..|puts| - 1])), OtherKey(puts[|puts| - 1].vector))
         == Filter(all, NotOverwritten(puts))
  {
    var front, last := puts[..|puts| - 1], puts[|puts| - 1];
    forall i | 0 <= i < |all|
      ensures NotOverwritten(puts)(all[i]) <==> NotOverwritten(front)(all[i]) && OtherKey(last.vector)(all[i])
    {
      OverwrittenNext(all[i], puts);
    }
    FilterTwice(all, NotOverwritten(front), OtherKey(last.vector), NotOverwritten(puts));
  }

  /**
    * Storing any number of vectors that were not known at the decision time changes the answer
    * exactly when one of them overwrites the answer itself.
    */
  lemma LaterRowsKeepAnswer(rows: seq<Row>, puts: seq<Row>, q: Query)
    requires NoneServable(puts, q)
    ensures PointInTime(PutRows(rows, puts), q) == PointInTime(rows, q)
      <==> PointInTime(rows, q).None? || !Overwritten(PointInTime(rows, q).value, puts)
  {
    var found := Sort(Filter(rows, Servable(q)), StampLe);
    StampOrder();
    ServableAfterPuts(rows, puts, q);
    SortFilter(Filter(rows, Servable(q)), StampLe, NotOverwritten(puts));
    LastKept(found, NotOverwritten(puts));
  }

  /** What was last stays last exactly when it passes. */
  lemma LastKept<T>(s: seq<T>, p: T -> bool)
    ensures Last(Filter(s, p)) == Last(s) <==> s == [] || p(s[|s| - 1])
  {
    if s != [] {
      var front, last := s[..|s| - 1], s[|s| - 1];
      FrontLast(s);
      FilterAppend(front, [last], p);
      FilterOne(last, p);
      if !p(last) {
        FilterMembers(s, p, last);
      }
    }
  }

  /** A vector of the wanted scope and set, known at the decision time. */
  predicate KnownThen(v: Vector, q: Query) {
    && v.scope == q.scope && v.setName == q.setName && v.setVersion == q.setVersion
    && v.ts <= q.decisionTs && v.availableTs <= q.decisionTs
  }

  ghost predicate NewestServable(rows: seq<Row>, q: Query, answer: Option<Row>) {
    match answer
    case Some(best) =>
      && best in rows && KnownThen(best.vector, q)
      && forall r :: r in rows && KnownThen(r.vector, q) ==>
           r.vector.ts < best.vector.ts
           || (r.vector.ts == best.vector.ts && r.vector.availableTs <= best.vector.availableTs)
    case None => forall r :: r in rows ==> !KnownThen(r.vector, q)
  }

  /** The primary key: scope, time, set, version and lineage. */
  predicate SharesKey(a: Vector, b: Vector) {
    && a.scope == b.scope && a.ts == b.ts
    && a.setName == b.setName && a.setVersion == b.setVersion && a.lineage == b.lineage
  }

  /** An old row that no vector overwrites, or a vector that no later one does. */
  ghost predicate Stored(rows: seq<Row>, vectors: seq<Vector>, runId: string, r: Row) {
    || (r in rows && forall i :: 0 <= i < |vectors| ==> !SharesKey(r.vector, vectors[i]))
    || (r.runId == runId && exists i :: 0 <= i < |vectors| && PutLastAt(vectors, i) && r.vector == vectors[i])
  }

  ghost predicate PutLastAt(vectors: seq<Vector>, i: int)
    requires 0 <= i < |vectors|
  {
    forall j :: i < j < |vectors| ==> !SharesKey(vectors[i], vectors[j])
  }

  lemma {:induction false} PutAllMembers(rows: seq<Row>, vectors: seq<Vector>, runId: string, r: Row)
    ensures r in PutAll(rows, vectors, runId) <==> Stored(rows, vectors, runId, r)
  {
    if vectors != [] {
      var front, last := vectors[..|vectors| - 1], vectors[|vectors| - 1];
      PutAllMembers(rows, front, runId, r);
      FilterMembers(PutAll(rows, front, runId), OtherKey(last), r);
      StoredNext(rows, front, last, runId, r);
      FrontLast(vectors);
    }
  }

  lemma StoredNext(rows: seq<Row>, front: seq<Vector>, last: Vector, runId: string, r: Row)
    ensures Stored(rows, front + [last], runId, r)
       <==> r == Row(runId, last) || (Stored(rows, front, runId, r) && !SharesKey(r.vector, last))
  {
    var all := front + [last];
    assert all[|front|] == last && PutLastAt(all, |front|);
    forall i | 0 <= i < |front| ensures PutLastAt(all, i) <==> PutLastAt(front, i) && !SharesKey(front[i], last) {
      assert forall j :: i < j < |front| ==> all[j] == front[j];
    }
  }

  lemma RunRows(rows: seq<Row>, runId: string)
    ensures var vectors := VectorsOf(Sort(Filter(rows, OfRun(runId)), RunLe));
            && (forall v :: v in vectors <==> exists r :: r in rows && r.runId == runId && r.vector == v)
            && forall i, j :: 0 <= i < j < |vectors| ==>
                 RunLe(Row(runId, vectors[i]), Row(runId, vectors[j]))
  {
    var own := Filter(rows, OfRun(runId));
    var sorted := Sort(own, RunLe);
    FilterKeeps(rows, OfRun(runId));
    SortMembers(own, RunLe);
    RunOrder();
    SortSorted(own, RunLe);
    forall v ensures v in VectorsOf(sorted) <==> exists r :: r in rows && r.runId == runId && r.vector == v {
      if v in VectorsOf(sorted) {
        var k :| 0 <= k < |sorted| && VectorsOf(sorted)[k] == v;
        assert sorted[k] in sorted && sorted[k].vector == v;
      }
      if r :| r in rows && r.runId == runId && r.vector == v {
        assert r in sorted;
        var k :| 0 <= k < |sorted| && sorted[k] == r;
        assert VectorsOf(sorted)[k] == v;
      }
    }
  }

  lemma RunOrder()
    ensures TotalPreorder(RunLe)
  {
    forall a, b ensures RunLe(a, b) || RunLe(b, a) {
      StringLeTotal(a.vector.symbol, b.vector.symbol);
    }
    forall a, b, c | RunLe(a, b) && RunLe(b, c) ensures RunLe(a, c) {
      StringLeTotal(a.vector.symbol, b.vector.symbol);
      StringLeTotal(b.vector.symbol, c.vector.symbol);
      if a.vector.symbol != b.vector.symbol && b.vector.symbol != c.vector.symbol {
        StringLeTransitive(a.vector.symbol, b.vector.symbol, c.vector.symbol);
      }
    }
  }

  class OfflineFeatureStore {
    var rows: seq<Row>

    constructor ()
      ensures rows == []
    {
      rows := [];
    }

    method PutMany(vectors: seq<Vector>, runId: string)
      modifies this
      ensures rows == PutAll(old(rows), vectors, runId)
      ensures forall r :: r in rows <==> Stored(old(rows), vectors, runId, r)
    {
      forall r ensures r in PutAll(rows, vectors, runId) <==> Stored(rows, vectors, runId, r) {
        PutAllMembers(rows, vectors, runId, r);
      }
      assert vectors[..0] == [];
      for i := 0 to |vectors|
        invariant rows == PutAll(old(rows), vectors[..i], runId)
      {
        TakeNext(vectors, i);
        rows := Filter(rows, OtherKey(vectors[i])) + [Row(runId, vectors[i])];
      }
      TakeAll(vectors);
    }

    method GetRunVectors(runId: string) returns (vectors: seq<Vector>)
      ensures vectors == VectorsOf(Sort(Filter(rows, OfRun(runId)), RunLe))
      ensures forall v :: v in vectors <==> exists r :: r in rows && r.runId == runId && r.vector == v
      ensures forall i, j :: 0 <= i < j < |vectors| ==>
        if vectors[i].symbol != vectors[j].symbol then StringLe(vectors[i].symbol, vectors[j].symbol)
        else vectors[i].ts < vectors[j].ts
             || (vectors[i].ts == vectors[j].ts && vectors[i].availableTs <= vectors[j].availableTs)
    {
      RunRows(rows, runId);
      vectors := VectorsOf(Sort(Filter(rows, OfRun(runId)), RunLe));
    }

    /** A greatest servable row; nothing when no row is servable. */
    method GetPointInTime(q: Query) returns (answer: Option<Row>)
      ensures NewestServable(rows, q, answer)
      ensures answer == PointInTime(rows, q)
    {
      PointInTimeIsGreatest(rows, q);
      forall r ensures Servable(q)(r) <==> KnownThen(r.vector, q) {
      }
      var found := Sort(Filter(rows, Servable(q)), StampLe);
      if found == [] {
        return None;
      }
      answer := Some(found[|found| - 1]);
    }
  }
}
