/** The parity check of the two executors (`parity.py`). */
module Parity {
  import opened Sequences
  import opened Sorting
  import opened FeatureModel
  import opened Nodes
  import opened State
  import opened ScopeRuntime
  import opened Batch
  import opened BatchExecutor
  import opened Runtime
  import opened AsofJoin
  import opened OfflineStore
  import opened Materialization

  type VectorKey = (Scope, int)

  function KeyOf(v: Vector): VectorKey {
    (v.scope, v.ts)
  }

  /** `{key(v): v for v in vectors}`: of vectors with the same key the last one stays. */
  function ByKey(vectors: seq<Vector>): map<VectorKey, Vector> {
    if vectors == [] then map[]
    else ByKey(vectors[..|vectors| - 1])[KeyOf(vectors[|vectors| - 1]) := vectors[|vectors| - 1]]
  }

  predicate HasKey(v: Vector, scope: Scope, ts: int) {
    v.scope == scope && v.ts == ts
  }

  predicate LastWithKey(vectors: seq<Vector>, i: int, scope: Scope, ts: int) {
    && 0 <= i < |vectors| && HasKey(vectors[i], scope, ts)
    && forall j :: i < j < |vectors| ==> !HasKey(vectors[j], scope, ts)
  }

  /** Under each scope and time, the last vector with it, and nothing under others. */
  lemma {:induction false} ByKeyIs(vectors: seq<Vector>, scope: Scope, ts: int)
    ensures var found := Lookup(ByKey(vectors), (scope, ts));
            if found.None? then forall v :: v in vectors ==> !HasKey(v, scope, ts)
            else exists i :: LastWithKey(vectors, i, scope, ts) && found.value == vectors[i]
  {
    if vectors != [] {
      var n := |vectors| - 1;
      ByKeyIs(vectors[..n], scope, ts);
      if HasKey(vectors[n], scope, ts) {
        assert LastWithKey(vectors, n, scope, ts);
      } else if i :| LastWithKey(vectors[..n], i, scope, ts)
                     && Lookup(ByKey(vectors[..n]), (scope, ts)) == Some(vectors[..n][i]) {
        LastStays(vectors, i, scope, ts);
      }
    }
  }

  lemma LastStays(vectors: seq<Vector>, i: int, scope: Scope, ts: int)
    requires vectors != [] && !HasKey(vectors[|vectors| - 1], scope, ts)
    requires LastWithKey(vectors[..|vectors| - 1], i, scope, ts)
    ensures LastWithKey(vectors, i, scope, ts)
  {
    var front := vectors[..|vectors| - 1];
    forall j | i < j < |vectors| ensures !HasKey(vectors[j], scope, ts) {
      assert j < |front| ==> vectors[j] == front[j];
    }
  }

  datatype Reason =
    | MissingBatch
    | PersistedBatchDiverged
    | MissingOnline
    | MissingValue
    | ToleranceExceeded(allowed: real)

  datatype Mismatch = Mismatch(
    symbol: string,
    scope: Scope,
    ts: int,
    feature: string,
    offline: Option<real>,
    online: Option<real>,
    reason: Reason)

  datatype Tolerances = Tolerances(byName: map<string, real>, default: real)

  function Allowed(t: Tolerances, name: string): real {
    if name in t.byName then t.byName[name] else t.default
  }

  function Absolute(x: real): real {
    if x < 0.0 then -x else x
  }

  predicate Concerns(v: Vector, m: Mismatch) {
    m.symbol == v.symbol && m.scope == v.scope && m.ts == v.ts
  }

  /** `m` says that two vectors hold, or lack, different values of a feature. */
  predicate Compares(v: Vector, w: Vector, m: Mismatch) {
    Concerns(v, m) && m.offline == Lookup(v.values, m.feature) && m.online == Lookup(w.values, m.feature)
  }

  predicate Diverges(offline: Vector, batch: Vector, m: Mismatch) {
    Compares(offline, batch, m) && m.offline != m.online && m.reason.PersistedBatchDiverged?
  }

  predicate Departs(t: Tolerances, offline: Vector, online: Vector, m: Mismatch) {
    && Compares(offline, online, m)
    && (m.offline.Some? || m.online.Some?)
    && if m.offline.None? || m.online.None? then m.reason.MissingValue?
       else
         && m.reason == ToleranceExceeded(Allowed(t, m.feature))
         && Allowed(t, m.feature) < Absolute(m.offline.value - m.online.value)
  }

  predicate Absent(offline: Vector, m: Mismatch) {
    Concerns(offline, m) && m.feature == "*" && m.offline == m.online == None
  }

  /** What the check holds against one persisted vector. */
  predicate Faulted(t: Tolerances, offline: Vector, batch: Option<Vector>, online: Option<Vector>, m: Mismatch) {
    if batch.None? then Absent(offline, m) && m.reason.MissingBatch?
    else
      || Diverges(offline, batch.value, m)
      || if online.None? then Absent(offline, m) && m.reason.MissingOnline?
         else Departs(t, offline, online.value, m)
  }

  /** The two values of a feature, as far as there are any. */
  predicate Values(v: Vector, w: Vector, m: Mismatch) {
    && (m.offline.Some? <==> m.feature in v.values)
    && (m.offline.Some? ==> m.offline.value == v.values[m.feature])
    && (m.online.Some? <==> m.feature in w.values)
    && (m.online.Some? ==> m.online.value == w.values[m.feature])
  }

  /** The same, reason by reason. */
  predicate FaultSpelled(t: Tolerances, offline: Vector, batch: Option<Vector>, online: Option<Vector>, m: Mismatch) {
    && m.symbol == offline.symbol && m.scope == offline.scope && m.ts == offline.ts
    && match m.reason
       case MissingBatch => batch.None? && m.feature == "*" && m.offline.None? && m.online.None?
       case PersistedBatchDiverged => batch.Some? && Values(offline, batch.value, m) && m.offline != m.online
       case MissingOnline =>
         batch.Some? && online.None? && m.feature == "*" && m.offline.None? && m.online.None?
       case MissingValue =>
         batch.Some? && online.Some? && Values(offline, online.value, m) && (m.offline.Some? <==> m.online.None?)
       case ToleranceExceeded(allowed) =>
         && batch.Some? && online.Some? && Values(offline, online.value, m) && m.offline.Some? && m.online.Some?
         && allowed == (if m.feature in t.byName then t.byName[m.feature] else t.default)
         && (allowed < m.offline.value - m.online.value || allowed < m.online.value - m.offline.value)
  }

  /** `sorted(a | b)`. */
  method SortedUnion(a: set<string>, b: set<string>) returns (names: seq<string>)
    ensures SortedBy(names, StringLe)
    ensures forall name :: name in names <==> name in a || name in b
  {
    var listed: seq<string> := [];
    var todo := a + b;
    while todo != {}
      invariant todo <= a + b
      invariant forall name :: name in listed <==> name in a + b && name !in todo
      decreases todo
    {
      var name :| name in todo;
      listed := listed + [name];
      todo := todo - {name};
    }
    names := Sort(listed, StringLe);
    StringOrder();
    SortSorted(listed, StringLe);
    SortMembers(listed, StringLe);
  }

  method BatchDifferences(offline: Vector, batch: Vector) returns (found: seq<Mismatch>)
    ensures forall m :: m in found <==> Diverges(offline, batch, m)
  {
    found := [];
    if offline.values != batch.values {
      var names := SortedUnion(offline.values.Keys, batch.values.Keys);
      for i := 0 to |names|
        invariant forall m :: m in found <==> Diverges(offline, batch, m) && m.feature in names[..i]
      {
        var ov, bv := Lookup(offline.values, names[i]), Lookup(batch.values, names[i]);
        assert names[..i + 1] == names[..i] + [names[i]];
        var m := Mismatch(offline.symbol, offline.scope, offline.ts, names[i], ov, bv, PersistedBatchDiverged);
        DivergesAs(offline, batch, m);
        if ov != bv {
          found := found + [m];
        }
      }
      TakeAll(names);
    }
  }

  lemma DivergesAs(offline: Vector, batch: Vector, known: Mismatch)
    requires Compares(offline, batch, known) && known.reason.PersistedBatchDiverged?
    ensures forall m :: Diverges(offline, batch, m) && m.feature == known.feature ==> m == known
    ensures Diverges(offline, batch, known) <==> known.offline != known.online
  {
  }

  method OnlineDifferences(t: Tolerances, offline: Vector, online: Vector) returns (found: seq<Mismatch>)
    ensures forall m :: m in found <==> Departs(t, offline, online, m)
  {
    found := [];
    var names := SortedUnion(offline.values.Keys, online.values.Keys);
    for i := 0 to |names|
      invariant forall m :: m in found <==> Departs(t, offline, online, m) && m.feature in names[..i]
    {
      var ov, lv := Lookup(offline.values, names[i]), Lookup(online.values, names[i]);
      assert names[..i + 1] == names[..i] + [names[i]];
      if ov.None? || lv.None? {
        found := found + [Mismatch(offline.symbol, offline.scope, offline.ts, names[i], ov, lv, MissingValue)];
      } else {
        var allowed := Allowed(t, names[i]);
        if Absolute(ov.value - lv.value) > allowed {
          found := found + [Mismatch(offline.symbol, offline.scope, offline.ts, names[i], ov, lv,
            ToleranceExceeded(allowed))];
        }
      }
    }
    TakeAll(names);
  }

  /** The body of the loop over the persisted vectors. */
  method CompareKey(t: Tolerances, offline: Vector, batch: Option<Vector>, online: Option<Vector>)
    returns (found: seq<Mismatch>)
    ensures forall m :: m in found <==> Faulted(t, offline, batch, online, m)
    ensures forall m :: m in found <==> FaultSpelled(t, offline, batch, online, m)
  {
    forall m ensures Faulted(t, offline, batch, online, m) <==> FaultSpelled(t, offline, batch, online, m) {
    }
    if batch.None? {
      return [Mismatch(offline.symbol, offline.scope, offline.ts, "*", None, None, MissingBatch)];
    }
    found := BatchDifferences(offline, batch.value);
    if online.None? {
      found := found + [Mismatch(offline.symbol, offline.scope, offline.ts, "*", None, None, MissingOnline)];
    } else {
      var more := OnlineDifferences(t, offline, online.value);
      found := found + more;
    }
  }

  /** What the check holds against one key of the persisted vectors. */
  predicate FaultedAt(t: Tolerances, offline: map<VectorKey, Vector>, batch: map<VectorKey, Vector>,
                      online: map<VectorKey, Vector>, k: VectorKey, m: Mismatch) {
    k in offline && Faulted(t, offline[k], Lookup(batch, k), Lookup(online, k), m)
  }

  ghost predicate Complete(t: Tolerances, offline: map<VectorKey, Vector>, batch: map<VectorKey, Vector>,
                           online: map<VectorKey, Vector>, found: seq<Mismatch>) {
    forall m :: m in found <==> exists k :: FaultedAt(t, offline, batch, online, k, m)
  }

  method CompareAll(t: Tolerances, offline: map<VectorKey, Vector>, batch: map<VectorKey, Vector>,
                    online: map<VectorKey, Vector>)
    returns (found: seq<Mismatch>)
    ensures Complete(t, offline, batch, online, found)
  {
    found := [];
    var todo := offline.Keys;
    while todo != {}
      invariant todo <= offline.Keys
      invariant forall m :: m in found <==> exists k :: FaultedAt(t, offline, batch, online, k, m) && k !in todo
      decreases todo
    {
      var k :| k in todo;
      var next := CompareKey(t, offline[k], Lookup(batch, k), Lookup(online, k));
      ghost var before, left := found, todo;
      found := found + next;
      todo := todo - {k};
      forall m ensures m in found <==> exists j :: FaultedAt(t, offline, batch, online, j, m) && j !in todo {
        assert m in next <==> FaultedAt(t, offline, batch, online, k, m);
        if j :| FaultedAt(t, offline, batch, online, j, m) && j !in todo {
          assert j == k || j !in left;
        }
      }
    }
  }

  /** The rows of a run in the offline store are the last vectors per key. */
  ghost predicate Persisted(rows: seq<Row>, runId: string, m: map<VectorKey, Vector>) {
    && (forall r :: r in rows && r.runId == runId ==> KeyOf(r.vector) in m && m[KeyOf(r.vector)] == r.vector)
    && (forall k :: k in m ==> KeyOf(m[k]) == k && Row(runId, m[k]) in rows)
  }

  ghost predicate OneStamp(vectors: seq<Vector>, name: string, version: string, lineage: string) {
    forall v :: v in vectors ==> v.setName == name && v.setVersion == version && v.lineage == lineage
  }

  lemma {:induction false} RunPersisted(rows: seq<Row>, vectors: seq<Vector>, runId: string, name: string,
                                        version: string, lineage: string)
    requires forall r :: r in rows ==> r.runId != runId
    requires OneStamp(vectors, name, version, lineage)
    ensures Persisted(PutAll(rows, vectors, runId), runId, ByKey(vectors))
    ensures forall k :: k in ByKey(vectors) ==> ByKey(vectors)[k] in vectors
  {
    if vectors != [] {
      var front, v := vectors[..|vectors| - 1], vectors[|vectors| - 1];
      RunPersisted(rows, front, runId, name, version, lineage);
      var before, m := PutAll(rows, front, runId), ByKey(front);
      var after := PutRow(before, Row(runId, v));
      forall r ensures r in after <==> r == Row(runId, v) || (r in before && !SameKey(r.vector, v)) {
        FilterMembers(before, OtherKey(v), r);
      }
      assert Persisted(after, runId, m[KeyOf(v) := v]);
    }
  }

  lemma {:induction false} ByKeyMembers(vectors: seq<Vector>, m: map<VectorKey, Vector>)
    requires forall v :: v in vectors ==> KeyOf(v) in m && m[KeyOf(v)] == v
    ensures forall k :: k in ByKey(vectors) ==> k in m && m[k] == ByKey(vectors)[k]
    ensures forall v :: v in vectors ==> KeyOf(v) in ByKey(vectors)
  {
    if vectors != [] {
      ByKeyMembers(vectors[..|vectors| - 1], m);
    }
  }

  lemma VectorsOfRun(rows: seq<Row>, read: seq<Row>, runId: string)
    requires forall r :: r in read <==> r in rows && r.runId == runId
    ensures forall v :: v in VectorsOf(read) <==> Row(runId, v) in rows
  {
    forall v ensures v in VectorsOf(read) <==> Row(runId, v) in rows {
      if v in VectorsOf(read) {
        var i :| 0 <= i < |read| && VectorsOf(read)[i] == v;
        assert read[i] in read && read[i] == Row(runId, v);
      }
      if Row(runId, v) in rows {
        var i :| 0 <= i < |read| && read[i] == Row(runId, v);
        assert VectorsOf(read)[i] == v;
      }
    }
  }

  /** What is read back of a run is what was put there, one vector per key. */
  lemma ReadBack(rows: seq<Row>, runId: string, m: map<VectorKey, Vector>)
    requires Persisted(rows, runId, m)
    ensures ByKey(VectorsOf(Sort(Filter(rows, OfRun(runId)), RunLe))) == m
  {
    var kept := Filter(rows, OfRun(runId));
    var read := Sort(kept, RunLe);
    FilterKeeps(rows, OfRun(runId));
    SortMembers(kept, RunLe);
    VectorsOfRun(rows, read, runId);
    ByKeyMembers(VectorsOf(read), m);
    forall k | k in m ensures k in ByKey(VectorsOf(read)) {
      assert m[k] in VectorsOf(read);
    }
  }

  function BatchVectors(cfg: Config, sorted: seq<Event>): (r: seq<Vector>)
    requires AllSupported(cfg.plan)
    ensures |r| == |sorted|
  {
    seq(|sorted|, k requires 0 <= k < |sorted| => BatchOutput(cfg, sorted, k))
  }

  function Streamed(cfg: Config, sorted: seq<Event>): seq<Vector> {
    Present(RunOutputs(cfg, Reject, FreshEngine(cfg.window), sorted))
  }

  lemma {:induction false} PresentAll<T>(s: seq<Option<T>>, values: seq<T>)
    requires |s| == |values| && forall k :: 0 <= k < |s| ==> s[k] == Some(values[k])
    ensures Present(s) == values
  {
    if s != [] {
      PresentAll(s[1..], values[1..]);
    }
  }

  lemma {:induction false} StampedAll(raw: seq<Option<Vector>>, prepared: seq<Prepared>, lineage: string)
    requires |raw| == |prepared| && forall k :: 0 <= k < |raw| ==> raw[k].Some?
    ensures var m := Stamped(raw, prepared, lineage);
            |m| == |raw| && forall k :: 0 <= k < |raw| ==> m[k] == Stamp(raw[k].value, prepared[k], lineage)
  {
    if raw != [] {
      var n := |raw| - 1;
      StampedAll(raw[..n], prepared[..n], lineage);
    }
  }

  ghost predicate SameReadings(v: Vector, w: Vector) {
    KeyOf(v) == KeyOf(w) && v.values == w.values
  }

  /** The three executions of a parity check give the same readings, vector for vector. */
  lemma ExecutionsAgree(cfg: Config, sorted: seq<Event>, lineage: string)
    requires WellFormed(cfg) && ScopesInOrder(sorted)
    ensures Streamed(cfg, sorted) == BatchVectors(cfg, sorted)
    ensures var m := Materialized(cfg, PreparedAll([], sorted), lineage);
            |m| == |sorted| && forall k :: 0 <= k < |m| ==> SameReadings(m[k], BatchVectors(cfg, sorted)[k])
  {
    var e, prepared := FreshEngine(cfg.window), PreparedAll([], sorted);
    EmptySound(cfg, e);
    FreshViews(cfg.window);
    StreamingEqualsBatch(cfg, Reject, e, sorted);
    var raw := RunOutputs(cfg, Reject, e, sorted);
    forall k | 0 <= k < |sorted| ensures raw[k] == Some(BatchVectors(cfg, sorted)[k]) {
      assert YieldsBatch(cfg, Reject, e, sorted, k);
    }
    PresentAll(raw, BatchVectors(cfg, sorted));
    assert EventsOfPrepared(prepared) == sorted;
    StampedAll(raw, prepared, lineage);
  }

  lemma FreshViews(window: pos)
    ensures forall scope :: ViewOf(EmptyTables(window), scope) == EMPTY
  {
    forall scope ensures ViewOf(EmptyTables(window), scope) == EMPTY {
      assert Slice(EmptyTables(window).agg, scope) == map[] && Slice(EmptyTables(window).history, scope) == map[];
    }
  }

  lemma {:induction false} SameReadingsByKey(m: seq<Vector>, b: seq<Vector>)
    requires |m| == |b| && forall k :: 0 <= k < |m| ==> SameReadings(m[k], b[k])
    ensures ByKey(m).Keys == ByKey(b).Keys
    ensures forall k :: k in ByKey(m) ==> ByKey(m)[k].values == ByKey(b)[k].values
  {
    if m != [] {
      SameReadingsByKey(m[..|m| - 1], b[..|b| - 1]);
    }
  }

  /** A check that finds a fault among equal readings has been given a negative tolerance, and the other way round. */
  lemma OnlyNegativeTolerancesFail(t: Tolerances, offline: map<VectorKey, Vector>, batch: map<VectorKey, Vector>)
    requires offline.Keys == batch.Keys && forall k :: k in offline ==> offline[k].values == batch[k].values
    ensures (exists k, m :: FaultedAt(t, offline, batch, batch, k, m))
       <==> exists k, name :: k in batch && name in batch[k].values && Allowed(t, name) < 0.0
  {
    forall k, m | FaultedAt(t, offline, batch, batch, k, m)
      ensures m.feature in batch[k].values && Allowed(t, m.feature) < 0.0
    {
    }
    forall k, name | k in batch && name in batch[k].values && Allowed(t, name) < 0.0
      ensures exists m :: FaultedAt(t, offline, batch, batch, k, m)
    {
      var v := offline[k];
      var read := Some(v.values[name]);
      assert FaultedAt(t, offline, batch, batch, k,
                       Mismatch(v.symbol, v.scope, v.ts, name, read, read, ToleranceExceeded(Allowed(t, name))));
    }
  }

  ghost predicate NegativeToleranceMet(cfg: Config, sorted: seq<Event>, t: Tolerances)
    requires AllSupported(cfg.plan)
  {
    var batch := ByKey(BatchVectors(cfg, sorted));
    exists k, name :: k in batch && name in batch[k].values && Allowed(t, name) < 0.0
  }

  /** The exception `run_parity_check` ends with, or its mismatches: it passes when there are none. */
  datatype ParityResult = Report(mismatches: seq<Mismatch>) | Raised(error: BatchError)

  /** What the check answers once a run was persisted. */
  ghost predicate Checked(cfg: Config, sorted: seq<Event>, t: Tolerances, offline: map<VectorKey, Vector>,
                          result: ParityResult) {
    if AllSupported(cfg.plan)
    then result.Report? && Complete(t, offline, ByKey(BatchVectors(cfg, sorted)), ByKey(Streamed(cfg, sorted)),
      result.mismatches)
    else result == if sorted == [] then Report([]) else Raised(UnsupportedKind)
  }

  /** On a well-formed set the check passes exactly when no emitted feature has a negative tolerance. */
  lemma ParityPasses(cfg: Config, events: seq<Event>, lineage: string, t: Tolerances, result: ParityResult)
    requires WellFormed(cfg) && ScopesNameSymbols(events)
    requires var sorted := Sort(events, SymbolEventLe);
             Checked(cfg, sorted, t, ByKey(Materialized(cfg, PreparedAll([], sorted), lineage)), result)
    ensures result == Report([]) <==> !NegativeToleranceMet(cfg, Sort(events, SymbolEventLe), t)
  {
    var sorted := Sort(events, SymbolEventLe);
    SortedInOrder(events);
    ExecutionsAgree(cfg, sorted, lineage);
    var m := Materialized(cfg, PreparedAll([], sorted), lineage);
    SameReadingsByKey(m, BatchVectors(cfg, sorted));
    var offline, batch := ByKey(m), ByKey(BatchVectors(cfg, sorted));
    OnlyNegativeTolerancesFail(t, offline, batch);
    PassesWhenFaultless(t, offline, batch, batch, result.mismatches);
  }

  lemma SortedInOrder(events: seq<Event>)
    requires ScopesNameSymbols(events)
    ensures ScopesInOrder(Sort(events, SymbolEventLe))
  {
    var sorted := Sort(events, SymbolEventLe);
    SymbolEventOrder();
    SortSorted(events, SymbolEventLe);
    SortMembers(events, SymbolEventLe);
    forall i, j | 0 <= i < |sorted| && 0 <= j < |sorted| && sorted[i].scope == sorted[j].scope
      ensures sorted[i].symbol == sorted[j].symbol
    {
      assert sorted[i] in events && sorted[j] in events;
    }
    SortedScopes(sorted);
  }

  method RunParityCheck(num: Numerics, events: seq<Event>, features: FeatureSet, tolerance: real,
                        store: OfflineFeatureStore, runId: string, lineage: string) returns (result: ParityResult)
    requires forall r :: r in store.rows ==> r.runId != runId
    modifies store
    ensures Dag.Plan(features.nodes).None? ==> result == Raised(CyclicDependency) && store.rows == old(store.rows)
    ensures Dag.Plan(features.nodes).Some? ==>
      var cfg, sorted := ConfigOf(num, features), Sort(events, SymbolEventLe);
      var persisted := Materialized(cfg, PreparedAll([], sorted), lineage);
      && store.rows == PutAll(old(store.rows), persisted, runId)
      && Checked(cfg, sorted, Tolerances(features.tolerances, tolerance), ByKey(persisted), result)
  {
    var sorted := Sort(events, SymbolEventLe);
    SortTwice(events);
    var materialized := Materialize(num, sorted, features, store, runId, lineage, []);
    if materialized.None? {
      return Raised(CyclicDependency);
    }
    var persisted := store.GetRunVectors(runId);
    StoredBack(ConfigOf(num, features), old(store.rows), PreparedAll([], sorted), runId, lineage);
    NothingMaterialized(ConfigOf(num, features), lineage);
    result := CompareExecutions(num, sorted, features, tolerance, ByKey(persisted));
  }

  /** Run both executors on the sorted events and hold what was persisted against them. */
  method CompareExecutions(num: Numerics, sorted: seq<Event>, features: FeatureSet, tolerance: real,
                           offline: map<VectorKey, Vector>)
    returns (result: ParityResult)
    requires Dag.Plan(features.nodes).Some? && SortedBy(sorted, SymbolEventLe) && (sorted == [] ==> offline == map[])
    ensures Checked(ConfigOf(num, features), sorted, Tolerances(features.tolerances, tolerance), offline, result)
  {
    ghost var cfg := ConfigOf(num, features);
    var t := Tolerances(features.tolerances, tolerance);
    var batch := ExecuteInOrder(num, sorted, features);
    if batch.Failed? {
      return Raised(batch.error);
    }
    var online := StreamInOrder(num, sorted, features);
    var found := CompareAll(t, offline, ByKey(batch.vectors), ByKey(online));
    PassesWhenFaultless(t, offline, ByKey(batch.vectors), ByKey(online), found);
    result := Report(found);
  }

  lemma PassesWhenFaultless(t: Tolerances, offline: map<VectorKey, Vector>, batch: map<VectorKey, Vector>,
                            online: map<VectorKey, Vector>, found: seq<Mismatch>)
    requires Complete(t, offline, batch, online, found)
    ensures found == [] <==> !exists k, m :: FaultedAt(t, offline, batch, online, k, m)
  {
    if found != [] {
      assert found[0] in found;
    } else {
      forall k, m ensures !FaultedAt(t, offline, batch, online, k, m) {
        assert m !in found;
      }
    }
  }

  lemma NothingMaterialized(cfg: Config, lineage: string)
    ensures ByKey(Materialized(cfg, PreparedAll([], []), lineage)) == map[]
  {
  }

  method ExecuteInOrder(num: Numerics, sorted: seq<Event>, features: FeatureSet) returns (batch: BatchResult)
    requires Dag.Plan(features.nodes).Some? && SortedBy(sorted, SymbolEventLe)
    ensures var cfg := ConfigOf(num, features);
            batch == if AllSupported(cfg.plan) then Vectors(BatchVectors(cfg, sorted))
                     else if sorted == [] then Vectors([]) else Failed(UnsupportedKind)
  {
    SymbolEventOrder();
    SortIdentity(sorted, SymbolEventLe);
    batch := Execute(num, sorted, features);
  }

  method StreamInOrder(num: Numerics, sorted: seq<Event>, features: FeatureSet) returns (online: seq<Vector>)
    requires Dag.Plan(features.nodes).Some?
    ensures online == Streamed(ConfigOf(num, features), sorted)
  {
    var engine := FeatureRuntimeEngine.Create(num, features, Reject, null);
    online := engine.UpdateBatch(sorted);
  }

  lemma SortTwice(events: seq<Event>)
    ensures SortedBy(Sort(events, SymbolEventLe), SymbolEventLe)
    ensures Sort(Sort(events, SymbolEventLe), SymbolEventLe) == Sort(events, SymbolEventLe)
  {
    SymbolEventOrder();
    SortSorted(events, SymbolEventLe);
    SortIdentity(Sort(events, SymbolEventLe), SymbolEventLe);
  }

  lemma {:induction false} StampedOnce(cfg: Config, raw: seq<Option<Vector>>, prepared: seq<Prepared>, lineage: string)
    requires |raw| == |prepared| && forall k :: 0 <= k < |raw| ==> NamedBy(cfg, raw[k])
    ensures OneStamp(Stamped(raw, prepared, lineage), cfg.setName, cfg.setVersion, lineage)
  {
    if raw != [] {
      var n := |raw| - 1;
      StampedOnce(cfg, raw[..n], prepared[..n], lineage);
    }
  }

  predicate NamedBy(cfg: Config, fv: Option<Vector>) {
    fv.Some? ==> fv.value.setName == cfg.setName && fv.value.setVersion == cfg.setVersion
  }

  lemma OutputName(cfg: Config, policy: Policy, e: Engine, event: Event)
    ensures NamedBy(cfg, StepOutput(cfg, policy, e, event))
  {
  }

  lemma {:induction false} OutputNames(cfg: Config, policy: Policy, e: Engine, events: seq<Event>)
    ensures forall k :: 0 <= k < |events| ==> NamedBy(cfg, RunOutputs(cfg, policy, e, events)[k])
  {
    if events != [] {
      var front, last := events[..|events| - 1], events[|events| - 1];
      OutputNames(cfg, policy, e, front);
      OutputName(cfg, policy, Run(cfg, policy, e, front), last);
      var raw := RunOutputs(cfg, policy, e, front);
      NamedNext(cfg, raw, StepOutput(cfg, policy, Run(cfg, policy, e, front), last));
    }
  }

  lemma NamedNext(cfg: Config, raw: seq<Option<Vector>>, fv: Option<Vector>)
    requires NamedBy(cfg, fv) && forall k :: 0 <= k < |raw| ==> NamedBy(cfg, raw[k])
    ensures forall k :: 0 <= k < |raw + [fv]| ==> NamedBy(cfg, (raw + [fv])[k])
  {
  }

  /** Reading a fresh run back gives what was materialized, one vector per key. */
  lemma StoredBack(cfg: Config, rows: seq<Row>, prepared: seq<Prepared>, runId: string, lineage: string)
    requires forall r :: r in rows ==> r.runId != runId
    ensures var vectors := Materialized(cfg, prepared, lineage);
            ByKey(VectorsOf(Sort(Filter(PutAll(rows, vectors, runId), OfRun(runId)), RunLe))) == ByKey(vectors)
  {
    var vectors := Materialized(cfg, prepared, lineage);
    OutputNames(cfg, Reject, FreshEngine(cfg.window), EventsOfPrepared(prepared));
    StampedOnce(cfg, RunOutputs(cfg, Reject, FreshEngine(cfg.window), EventsOfPrepared(prepared)), prepared, lineage);
    RunPersisted(rows, vectors, runId, cfg.setName, cfg.setVersion, lineage);
    ReadBack(PutAll(rows, vectors, runId), runId, ByKey(vectors));
  }
}
