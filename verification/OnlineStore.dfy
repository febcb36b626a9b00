/** The online store: a pruned history of vectors and the latest one of each scope (`online_store.py`). */
module OnlineStore {
  import opened Sequences
  import opened Sorting
  import opened FeatureModel
  import opened TopK
  import opened OfflineStore

  /** The rows of one scope and one version of a feature set. */
  datatype Group = Group(scope: Scope, setName: string, setVersion: string)

  function GroupOf(v: Vector): Group {
    Group(v.scope, v.setName, v.setVersion)
  }

  function InGroup(g: Group): Vector -> bool {
    (v: Vector) => GroupOf(v) == g
  }

  function OtherRow(v: Vector): Vector -> bool {
    (r: Vector) => !SameKey(r, v)
  }

  /** `ORDER BY ts, available_ts`. */
  predicate VectorLe(a: Vector, b: Vector) {
    a.ts < b.ts || (a.ts == b.ts && a.availableTs <= b.availableTs)
  }

  lemma VectorOrder()
    ensures TotalPreorder(VectorLe)
  {
  }

  /** The rows of a group, oldest first. */
  function Ranked(history: seq<Vector>, g: Group): seq<Vector> {
    Sort(Filter(history, InGroup(g)), VectorLe)
  }

  function HistoryPut(history: seq<Vector>, v: Vector): seq<Vector> {
    Filter(history, OtherRow(v)) + [v]
  }

  /** A cap that is missing or not positive caps nothing. */
  function Excess(history: seq<Vector>, cap: Option<int>, g: Group): seq<Vector> {
    var rows := Ranked(history, g);
    if cap.Some? && 0 < cap.value < |rows| then rows[..|rows| - cap.value] else []
  }

  predicate Deleted(excess: seq<Vector>, r: Vector) {
    exists i :: 0 <= i < |excess| && SameKey(excess[i], r)
  }

  predicate Selected(only: Option<Group>, v: Vector) {
    only.None? || GroupOf(v) == only.value
  }

  function Survives(history: seq<Vector>, cap: Option<int>, only: Option<Group>): Vector -> bool {
    (r: Vector) => !Selected(only, r) || !Deleted(Excess(history, cap, GroupOf(r)), r)
  }

  /** The history without the rows, of the selected groups, that are too many in their group. */
  function Pruned(history: seq<Vector>, cap: Option<int>, only: Option<Group>): seq<Vector> {
    Filter(history, Survives(history, cap, only))
  }

  function Upserted(history: seq<Vector>, cap: Option<int>, v: Vector): seq<Vector> {
    Pruned(HistoryPut(history, v), cap, Some(GroupOf(v)))
  }

  function UpsertAll(cap: Option<int>, vectors: seq<Vector>): seq<Vector> {
    if vectors == [] then [] else Upserted(UpsertAll(cap, vectors[..|vectors| - 1]), cap, vectors[|vectors| - 1])
  }

  /**
    * No two rows of the group have the same times unless they are the same row, and no row is
    * rewritten with another availability.
    */
  ghost predicate Consistent(vectors: seq<Vector>, g: Group) {
    forall a, b :: a in vectors && b in vectors && GroupOf(a) == g == GroupOf(b)
      ==> (SameKey(a, b) <==> Ties(a, b, VectorLe))
  }

  lemma RankedMembers(history: seq<Vector>, g: Group)
    ensures forall v :: v in Ranked(history, g) <==> v in history && GroupOf(v) == g
  {
    FilterKeeps(history, InGroup(g));
    SortMembers(Filter(history, InGroup(g)), VectorLe);
  }

  /** Putting a row puts it among the rows of its group... */
  lemma RankedPut(history: seq<Vector>, v: Vector)
    requires var g := GroupOf(v); Strict(Ranked(history, g), VectorLe) && Consistent(history + [v], g)
    ensures Ranked(HistoryPut(history, v), GroupOf(v)) == Put(Ranked(history, GroupOf(v)), v, VectorLe)
  {
    var g := GroupOf(v);
    var rows := Filter(history, InGroup(g));
    FilterAppend(Filter(history, OtherRow(v)), [v], InGroup(g));
    FilterOne(v, InGroup(g));
    SwapFilters(history, OtherRow(v), InGroup(g));
    OthersAreUntied(history, v);
    VectorOrder();
    SortPut(rows, v, VectorLe);
  }

  lemma OthersAreUntied(history: seq<Vector>, v: Vector)
    requires Consistent(history + [v], GroupOf(v))
    ensures var rows := Filter(history, InGroup(GroupOf(v)));
            Filter(rows, OtherRow(v)) == Filter(rows, NotTied(v, VectorLe))
  {
    var rows := Filter(history, InGroup(GroupOf(v)));
    forall i | 0 <= i < |rows| ensures OtherRow(v)(rows[i]) <==> NotTied(v, VectorLe)(rows[i]) {
      FilterMembers(history, InGroup(GroupOf(v)), rows[i]);
      assert rows[i] in history + [v] && v in history + [v];
    }
    FilterSameBy(rows, OtherRow(v), NotTied(v, VectorLe));
  }

  /** ...and leaves the others alone. */
  lemma RankedPutElsewhere(history: seq<Vector>, v: Vector, g: Group)
    requires GroupOf(v) != g
    ensures Ranked(HistoryPut(history, v), g) == Ranked(history, g)
  {
    FilterAppend(Filter(history, OtherRow(v)), [v], InGroup(g));
    FilterOne(v, InGroup(g));
    FilterTwice(history, OtherRow(v), InGroup(g), InGroup(g));
    var kept := Filter(Filter(history, OtherRow(v)), InGroup(g));
    assert kept + [] == kept;
  }

  function CapTo(rows: seq<Vector>, cap: Option<int>): seq<Vector> {
    if cap.Some? && 0 < cap.value then LastN(rows, cap.value) else rows
  }

  /** Pruning leaves a selected group its newest rows... */
  lemma RankedPruned(history: seq<Vector>, cap: Option<int>, only: Option<Group>, g: Group)
    requires Strict(Ranked(history, g), VectorLe) && Consistent(history, g)
    requires only.None? || only.value == g
    ensures Ranked(Pruned(history, cap, only), g) == CapTo(Ranked(history, g), cap)
  {
    RankedFiltered(history, Survives(history, cap, only), g);
    WhoSurvives(history, cap, only, g);
    CapDrops(history, cap, g);
    FilterTail(Ranked(history, g), Survives(history, cap, only), |Excess(history, cap, g)|);
  }

  lemma CapDrops(history: seq<Vector>, cap: Option<int>, g: Group)
    ensures |Excess(history, cap, g)| <= |Ranked(history, g)|
    ensures Ranked(history, g)[|Excess(history, cap, g)|..] == CapTo(Ranked(history, g), cap)
  {
  }

  lemma RankedFiltered(history: seq<Vector>, p: Vector -> bool, g: Group)
    ensures Ranked(Filter(history, p), g) == Filter(Ranked(history, g), p)
  {
    SwapFilters(history, p, InGroup(g));
    VectorOrder();
    SortFilter(Filter(history, InGroup(g)), VectorLe, p);
  }

  lemma WhoSurvives(history: seq<Vector>, cap: Option<int>, only: Option<Group>, g: Group)
    requires Strict(Ranked(history, g), VectorLe) && Consistent(history, g)
    requires only.None? || only.value == g
    ensures var rows := Ranked(history, g);
            forall i :: 0 <= i < |rows| ==> (Survives(history, cap, only)(rows[i]) <==> |Excess(history, cap, g)| <= i)
  {
    var rows, excess := Ranked(history, g), Excess(history, cap, g);
    RankedMembers(history, g);
    SurvivorsAreNewest(rows, excess);
    forall i | 0 <= i < |rows| ensures Survives(history, cap, only)(rows[i]) <==> |excess| <= i {
      assert rows[i] in rows;
    }
  }

  /** ...and another one what it had. */
  lemma RankedPrunedElsewhere(history: seq<Vector>, cap: Option<int>, only: Group, g: Group)
    requires only != g
    ensures Ranked(Pruned(history, cap, Some(only)), g) == Ranked(history, g)
  {
    FilterTwice(history, Survives(history, cap, Some(only)), InGroup(g), InGroup(g));
  }

  lemma SurvivorsAreNewest(rows: seq<Vector>, excess: seq<Vector>)
    requires |excess| <= |rows| && excess == rows[..|excess|] && Strict(rows, VectorLe)
    requires forall a, b :: a in rows && b in rows ==> (SameKey(a, b) <==> Ties(a, b, VectorLe))
    ensures forall i :: 0 <= i < |rows| ==> (Deleted(excess, rows[i]) <==> i < |excess|)
  {
    forall i | 0 <= i < |rows| ensures Deleted(excess, rows[i]) <==> i < |excess| {
      assert rows[i] in rows;
      if i < |excess| {
        assert SameKey(excess[i], rows[i]);
      } else {
        forall j | 0 <= j < |excess| ensures !SameKey(excess[j], rows[i]) {
          assert rows[j] in rows && excess[j] == rows[j];
        }
      }
    }
  }

  function OwnOf(vectors: seq<Vector>, g: Group): seq<Vector> {
    Filter(vectors, InGroup(g))
  }

  lemma OwnNext(vectors: seq<Vector>, v: Vector, g: Group)
    ensures OwnOf(vectors + [v], g) == if GroupOf(v) == g then OwnOf(vectors, g) + [v] else OwnOf(vectors, g)
  {
    FilterAppend(vectors, [v], InGroup(g));
    FilterOne(v, InGroup(g));
  }

  lemma OwnLast(vectors: seq<Vector>, g: Group)
    requires vectors != []
    ensures var front, v := vectors[..|vectors| - 1], vectors[|vectors| - 1];
            OwnOf(vectors, g) == if GroupOf(v) == g then OwnOf(front, g) + [v] else OwnOf(front, g)
  {
    FrontLast(vectors);
    OwnNext(vectors[..|vectors| - 1], vectors[|vectors| - 1], g);
  }

  lemma {:induction false} UpsertedFrom(cap: Option<int>, vectors: seq<Vector>)
    ensures forall v :: v in UpsertAll(cap, vectors) ==> v in vectors
  {
    if vectors != [] {
      var front, last := vectors[..|vectors| - 1], vectors[|vectors| - 1];
      UpsertedFrom(cap, front);
      var h := UpsertAll(cap, front);
      var put := HistoryPut(h, last);
      forall v | v in UpsertAll(cap, vectors) ensures v in vectors {
        FilterMembers(put, Survives(put, cap, Some(GroupOf(last))), v);
        FilterMembers(h, OtherRow(last), v);
      }
    }
  }

  lemma ConsistentPart(vectors: seq<Vector>, part: seq<Vector>, g: Group)
    requires Consistent(vectors, g) && forall v :: v in part ==> v in vectors
    ensures Consistent(part, g)
  {
  }

  function Kept(own: seq<Vector>, cap: Option<int>): seq<Vector> {
    if cap.Some? && 0 < cap.value then KeepEach(own, cap.value, VectorLe) else PutEach(own, VectorLe)
  }

  /** Upserts treat each group as if the others were not there. */
  lemma {:induction false} RankedUpserts(cap: Option<int>, vectors: seq<Vector>, g: Group)
    requires Consistent(vectors, g)
    ensures Ranked(UpsertAll(cap, vectors), g) == Kept(OwnOf(vectors, g), cap)
    ensures Strict(Kept(OwnOf(vectors, g), cap), VectorLe)
  {
    KeptStrict(OwnOf(vectors, g), cap);
    if vectors != [] {
      var front, v := vectors[..|vectors| - 1], vectors[|vectors| - 1];
      ConsistentPart(vectors, front, g);
      RankedUpserts(cap, front, g);
      OwnLast(vectors, g);
      var h := UpsertAll(cap, front);
      if GroupOf(v) == g {
        OwnUpsert(cap, vectors, h);
        KeptNext(OwnOf(front, g), cap, v);
      } else {
        RankedPutElsewhere(h, v, g);
        RankedPrunedElsewhere(HistoryPut(h, v), cap, GroupOf(v), g);
      }
    }
  }

  lemma OwnUpsert(cap: Option<int>, vectors: seq<Vector>, h: seq<Vector>)
    requires vectors != [] && h == UpsertAll(cap, vectors[..|vectors| - 1])
    requires var g := GroupOf(vectors[|vectors| - 1]); Consistent(vectors, g) && Strict(Ranked(h, g), VectorLe)
    ensures var v := vectors[|vectors| - 1];
            Ranked(Upserted(h, cap, v), GroupOf(v)) == CapTo(Put(Ranked(h, GroupOf(v)), v, VectorLe), cap)
  {
    var v := vectors[|vectors| - 1];
    var g, put := GroupOf(v), HistoryPut(h, v);
    UpsertedFrom(cap, vectors[..|vectors| - 1]);
    ConsistentPart(vectors, h + [v], g);
    RankedPut(h, v);
    VectorOrder();
    PutStrict(Ranked(h, g), v, VectorLe);
    forall r | r in put ensures r in vectors {
      FilterMembers(h, OtherRow(v), r);
    }
    ConsistentPart(vectors, put, g);
    RankedPruned(put, cap, Some(g), g);
  }

  lemma KeptStrict(own: seq<Vector>, cap: Option<int>)
    ensures Strict(Kept(own, cap), VectorLe)
  {
    VectorOrder();
    PutEachStrict(own, VectorLe);
    if cap.Some? && 0 < cap.value {
      KeptIsTopK(own, cap.value, VectorLe);
    }
  }

  lemma KeptNext(own: seq<Vector>, cap: Option<int>, v: Vector)
    ensures Kept(own + [v], cap) == CapTo(Put(Kept(own, cap), v, VectorLe), cap)
  {
    assert (own + [v])[..|own|] == own;
  }

  /** After any upserts, a pruned group holds exactly the newest rows of the unpruned one. */
  lemma PrunedIsTopK(k: pos, vectors: seq<Vector>, g: Group)
    requires Consistent(vectors, g)
    ensures Ranked(UpsertAll(Some(k), vectors), g) == LastN(Ranked(UpsertAll(None, vectors), g), k)
  {
    RankedUpserts(Some(k), vectors, g);
    RankedUpserts(None, vectors, g);
    KeptIsNewest(OwnOf(vectors, g), k);
  }

  lemma KeptIsNewest(own: seq<Vector>, k: pos)
    ensures Kept(own, Some(k)) == LastN(PutEach(own, VectorLe), k)
  {
    VectorOrder();
    KeptIsTopK(own, k, VectorLe);
  }

  function Reversed<T>(s: seq<T>): (r: seq<T>)
    ensures |r| == |s|
  {
    seq(|s|, i requires 0 <= i < |s| => s[|s| - 1 - i])
  }

  /** `ORDER BY ts DESC, available_ts DESC LIMIT limit`; a negative limit is none. */
  function RecentHistory(history: seq<Vector>, g: Group, limit: int): seq<Vector> {
    var rows := Ranked(history, g);
    Reversed(if limit < 0 then rows else LastN(rows, limit))
  }

  /** `a` is older than `b`, or as old. */
  predicate NotNewer(a: Vector, b: Vector) {
    a.ts < b.ts || (a.ts == b.ts && a.availableTs <= b.availableTs)
  }

  predicate OfGroup(v: Vector, g: Group) {
    v.scope == g.scope && v.setName == g.setName && v.setVersion == g.setVersion
  }

  /** The newest `limit` rows of a group, newest first. */
  ghost predicate NewestFirst(rows: seq<Vector>, history: seq<Vector>, g: Group, limit: int) {
    && (forall i, j :: 0 <= i < j < |rows| ==> NotNewer(rows[j], rows[i]))
    && (forall r :: r in rows ==> r in history && OfGroup(r, g))
    && (forall r :: multiset(rows)[r] <= multiset(history)[r])
    && |rows| <= limit
    && (forall v :: v in history && OfGroup(v, g) && multiset(rows)[v] < multiset(history)[v] ==>
          |rows| == limit && forall r :: r in rows ==> NotNewer(v, r))
  }

  /** The end of a sorted list of a group's rows, reversed. */
  lemma NewestOfSorted(ranked: seq<Vector>, history: seq<Vector>, g: Group, limit: pos)
    requires SortedBy(ranked, VectorLe)
    requires forall v :: multiset(ranked)[v] == if OfGroup(v, g) then multiset(history)[v] else 0
    ensures NewestFirst(Reversed(LastN(ranked, limit)), history, g, limit)
  {
    ReversedSame(LastN(ranked, limit));
    TailCounts(ranked, limit);
    ReversedOrder(ranked, limit);
    RankedRows(ranked, history, g, Reversed(LastN(ranked, limit)));
    forall v | multiset(LastN(ranked, limit))[v] < multiset(ranked)[v]
      ensures |LastN(ranked, limit)| == limit && forall r :: r in LastN(ranked, limit) ==> NotNewer(v, r)
    {
      DroppedIsOlder(ranked, limit, v);
    }
    SameMembers(Reversed(LastN(ranked, limit)), LastN(ranked, limit));
  }

  lemma ReversedOrder(ranked: seq<Vector>, limit: pos)
    requires SortedBy(ranked, VectorLe)
    ensures var rows := Reversed(LastN(ranked, limit));
            forall i, j :: 0 <= i < j < |rows| ==> NotNewer(rows[j], rows[i])
  {
    var rows, n := Reversed(LastN(ranked, limit)), |ranked|;
    forall i, j | 0 <= i < j < |rows| ensures NotNewer(rows[j], rows[i]) {
      assert rows[i] == ranked[n - 1 - i] && rows[j] == ranked[n - 1 - j];
      assert VectorLe(ranked[n - 1 - j], ranked[n - 1 - i]);
    }
  }

  lemma RankedRows(ranked: seq<Vector>, history: seq<Vector>, g: Group, rows: seq<Vector>)
    requires forall v :: multiset(ranked)[v] == if OfGroup(v, g) then multiset(history)[v] else 0
    requires forall v :: multiset(rows)[v] <= multiset(ranked)[v]
    ensures forall r :: r in rows ==> r in history && OfGroup(r, g)
    ensures forall r :: multiset(rows)[r] <= multiset(history)[r]
  {
    forall r | r in rows ensures r in history && OfGroup(r, g) {
      assert r in multiset(rows) && r in multiset(ranked) && r in multiset(history);
    }
  }

  lemma {:induction false} ReversedSame(s: seq<Vector>)
    ensures multiset(Reversed(s)) == multiset(s)
  {
    if s != [] {
      var front, last := s[..|s| - 1], s[|s| - 1];
      ReversedSame(front);
      FrontLast(s);
      assert Reversed(s) == [last] + Reversed(front);
    }
  }

  lemma TailCounts(ranked: seq<Vector>, n: nat)
    ensures forall v :: multiset(LastN(ranked, n))[v] <= multiset(ranked)[v]
  {
    if n < |ranked| {
      assert ranked == ranked[..|ranked| - n] + LastN(ranked, n);
    }
  }

  lemma DroppedIsOlder(ranked: seq<Vector>, n: nat, v: Vector)
    requires SortedBy(ranked, VectorLe) && multiset(LastN(ranked, n))[v] < multiset(ranked)[v]
    ensures |LastN(ranked, n)| == n && forall r :: r in LastN(ranked, n) ==> NotNewer(v, r)
  {
    var tail, front := LastN(ranked, n), ranked[..if n < |ranked| then |ranked| - n else 0];
    assert ranked == front + tail;
    assert v in multiset(front);
    var i :| 0 <= i < |front| && front[i] == v;
    forall r | r in tail ensures NotNewer(v, r) {
      var j :| 0 <= j < |tail| && tail[j] == r;
      assert VectorLe(ranked[i], ranked[|front| + j]);
    }
  }

  lemma RankedCounts(history: seq<Vector>, g: Group)
    ensures SortedBy(Ranked(history, g), VectorLe)
    ensures forall v :: multiset(Ranked(history, g))[v] == if OfGroup(v, g) then multiset(history)[v] else 0
  {
    VectorOrder();
    SortSorted(Filter(history, InGroup(g)), VectorLe);
    forall v ensures multiset(Ranked(history, g))[v] == if OfGroup(v, g) then multiset(history)[v] else 0 {
      FilterCount(history, InGroup(g), v);
    }
  }

  /** A newest row of the group known by the cutoff. */
  ghost predicate NewestKnown(history: seq<Vector>, g: Group, cutoff: int, answer: Option<Vector>) {
    match answer
    case Some(v) =>
      && v in history && OfGroup(v, g) && v.ts <= cutoff && v.availableTs <= cutoff
      && forall u :: u in history && OfGroup(u, g) && u.ts <= cutoff && u.availableTs <= cutoff ==> NotNewer(u, v)
    case None => forall u :: u in history && OfGroup(u, g) ==> cutoff < u.ts || cutoff < u.availableTs
  }

  lemma LastIsNewestKnown(ranked: seq<Vector>, history: seq<Vector>, g: Group, cutoff: int)
    requires SortedBy(ranked, VectorLe) && forall v :: v in ranked <==> v in history && OfGroup(v, g)
    ensures NewestKnown(history, g, cutoff, Last(Filter(ranked, KnownBy(cutoff))))
  {
    var known := Filter(ranked, KnownBy(cutoff));
    FilterKeeps(ranked, KnownBy(cutoff));
    FilterSorted(ranked, KnownBy(cutoff));
    if known == [] {
      forall u | u in history && OfGroup(u, g) ensures cutoff < u.ts || cutoff < u.availableTs {
        assert u !in known;
      }
    } else {
      var last := known[|known| - 1];
      assert last in known;
      forall u | u in known ensures NotNewer(u, last) {
        var i :| 0 <= i < |known| && known[i] == u;
        assert i < |known| - 1 ==> VectorLe(known[i], last);
      }
    }
  }

  lemma {:induction false} FilterSorted(s: seq<Vector>, p: Vector -> bool)
    requires SortedBy(s, VectorLe)
    ensures SortedBy(Filter(s, p), VectorLe)
  {
    if s != [] {
      FilterSorted(s[1..], p);
      var rest := Filter(s[1..], p);
      forall j | 0 <= j < |rest| ensures VectorLe(s[0], rest[j]) {
        FilterMembers(s[1..], p, rest[j]);
      }
    }
  }

  function KnownBy(cutoff: int): Vector -> bool {
    (v: Vector) => v.availableTs <= cutoff && v.ts <= cutoff
  }

  /** The newest of the rows known by the cutoff. */
  function SnapshotBefore(history: seq<Vector>, g: Group, cutoff: int): Option<Vector> {
    Last(Filter(Ranked(history, g), KnownBy(cutoff)))
  }

  /** Up to the cap, recent history is that of a store that never prunes. */
  lemma RecentHistorySurvivesPruning(k: pos, vectors: seq<Vector>, g: Group, limit: nat)
    requires Consistent(vectors, g) && limit <= k
    ensures RecentHistory(UpsertAll(Some(k), vectors), g, limit) == RecentHistory(UpsertAll(None, vectors), g, limit)
  {
    PrunedIsTopK(k, vectors, g);
    LastNLastN(Ranked(UpsertAll(None, vectors), g), k, limit);
  }

  /** What a pruned store finds before a cutoff is what an unpruned one finds. */
  lemma SnapshotSurvivesPruning(k: pos, vectors: seq<Vector>, g: Group, cutoff: int)
    requires Consistent(vectors, g)
    ensures var found := SnapshotBefore(UpsertAll(Some(k), vectors), g, cutoff);
            var sought := SnapshotBefore(UpsertAll(None, vectors), g, cutoff);
            && (found.Some? ==> found == sought)
            && (found.Some? <==> sought.Some? && sought.value in LastN(Ranked(UpsertAll(None, vectors), g), k))
  {
    PrunedIsTopK(k, vectors, g);
    var rows := Ranked(UpsertAll(None, vectors), g);
    LastPassing(rows, k, KnownBy(cutoff));
    var found, sought := Last(Filter(LastN(rows, k), KnownBy(cutoff))), Last(Filter(rows, KnownBy(cutoff)));
    if found.Some? {
      FilterMembers(LastN(rows, k), KnownBy(cutoff), found.value);
    }
    if sought.Some? {
      FilterMembers(rows, KnownBy(cutoff), sought.value);
      FilterMembers(LastN(rows, k), KnownBy(cutoff), sought.value);
    }
  }

  /** A vector not known by the cutoff goes among the others that are not. */
  lemma {:induction false} PutUnknown(s: seq<Vector>, v: Vector, cutoff: int)
    requires !KnownBy(cutoff)(v)
    ensures Filter(Put(s, v, VectorLe), KnownBy(cutoff)) == Filter(s, KnownBy(cutoff))
  {
    if s != [] && !Ties(s[0], v, VectorLe) && !VectorLe(v, s[0]) {
      PutUnknown(s[1..], v, cutoff);
    }
  }

  lemma {:induction false} PutAllUnknown(own: seq<Vector>, later: seq<Vector>, cutoff: int)
    requires forall i :: 0 <= i < |later| ==> !KnownBy(cutoff)(later[i])
    ensures Filter(PutEach(own + later, VectorLe), KnownBy(cutoff)) == Filter(PutEach(own, VectorLe), KnownBy(cutoff))
  {
    if later == [] {
      assert own + later == own;
    } else {
      var front, v := later[..|later| - 1], later[|later| - 1];
      assert (own + later)[..|own + later| - 1] == own + front;
      PutAllUnknown(own, front, cutoff);
      PutUnknown(PutEach(own + front, VectorLe), v, cutoff);
    }
  }

  /** Without pruning, upserts not yet known at the cutoff never change the answer. */
  lemma LaterUpsertsKeepSnapshot(vectors: seq<Vector>, later: seq<Vector>, g: Group, cutoff: int)
    requires Consistent(vectors + later, g) && forall i :: 0 <= i < |later| ==> !KnownBy(cutoff)(later[i])
    ensures SnapshotBefore(UpsertAll(None, vectors + later), g, cutoff)
         == SnapshotBefore(UpsertAll(None, vectors), g, cutoff)
  {
    ConsistentPart(vectors + later, vectors, g);
    RankedUpserts(None, vectors + later, g);
    RankedUpserts(None, vectors, g);
    FilterAppend(vectors, later, InGroup(g));
    var own := OwnOf(later, g);
    forall i | 0 <= i < |own| ensures !KnownBy(cutoff)(own[i]) {
      FilterMembers(later, InGroup(g), own[i]);
    }
    PutAllUnknown(OwnOf(vectors, g), own, cutoff);
  }

  lemma {:induction false} PutLast(s: seq<Vector>, v: Vector)
    requires forall i :: 0 <= i < |s| ==> VectorLe(s[i], v)
    ensures Put(s, v, VectorLe) != [] && Last(Put(s, v, VectorLe)) == Some(v)
    requires Strict(s, VectorLe)
  {
    if s != [] && !Ties(s[0], v, VectorLe) {
      PutLast(s[1..], v);
    }
  }

  /** The table of latest vectors after any upserts: each takes the place of its group's. */
  function LatestAll(vectors: seq<Vector>): map<Group, Vector> {
    if vectors == [] then map[]
    else
      var v := vectors[|vectors| - 1];
      LatestAll(vectors[..|vectors| - 1])[GroupOf(v) := v]
  }

  function LatestServable(latest: map<Group, Vector>, g: Group, decisionTs: int): Option<Vector> {
    if g in latest && KnownBy(decisionTs)(latest[g]) then Some(latest[g]) else None
  }

  /** The latest vector of a group is the one upserted last to it, whatever else was upserted since. */
  lemma {:induction false} LatestIsLast(vectors: seq<Vector>, g: Group)
    ensures g in LatestAll(vectors) <==> OwnOf(vectors, g) != []
    ensures g in LatestAll(vectors) ==> Last(OwnOf(vectors, g)) == Some(LatestAll(vectors)[g])
  {
    if vectors != [] {
      LatestIsLast(vectors[..|vectors| - 1], g);
      OwnLast(vectors, g);
    }
  }

  /** `v` is above every vector of the group that was known by the cutoff. */
  ghost predicate NothingNewer(own: seq<Vector>, cutoff: int, v: Vector) {
    forall u :: u in own && KnownBy(cutoff)(u) ==> VectorLe(u, v)
  }

  /**
    * A servable latest vector is the answer before the same time exactly when no known vector of its
    * group is newer and pruning has kept it.
    */
  lemma LatestServableIff(cap: Option<int>, vectors: seq<Vector>, g: Group, decisionTs: int)
    requires Consistent(vectors, g)
    ensures var hit := LatestServable(LatestAll(vectors), g, decisionTs);
            hit.Some? ==>
              (SnapshotBefore(UpsertAll(cap, vectors), g, decisionTs) == hit <==>
                && NothingNewer(OwnOf(vectors, g), decisionTs, hit.value)
                && hit.value in CapTo(PutEach(OwnOf(vectors, g), VectorLe), cap))
  {
    var hit := LatestServable(LatestAll(vectors), g, decisionTs);
    if hit.Some? {
      var own, v := OwnOf(vectors, g), hit.value;
      LatestIsLast(vectors, g);
      RankedUpserts(cap, vectors, g);
      KeptIsCapped(own, cap);
      LastOfKnownIff(Kept(own, cap), v, decisionTs);
      NewerKept(own, v, cap, decisionTs);
    }
  }

  /** If a group's vectors came in order, a servable latest vector is the answer before the same time. */
  lemma LatestServableIsSnapshot(cap: Option<int>, vectors: seq<Vector>, g: Group, decisionTs: int)
    requires Consistent(vectors, g) && SortedBy(OwnOf(vectors, g), VectorLe)
    ensures var hit := LatestServable(LatestAll(vectors), g, decisionTs);
            hit.Some? ==> SnapshotBefore(UpsertAll(cap, vectors), g, decisionTs) == hit
  {
    var hit := LatestServable(LatestAll(vectors), g, decisionTs);
    if hit.Some? {
      var own := OwnOf(vectors, g);
      LatestIsLast(vectors, g);
      InOrderNothingNewer(own, decisionTs);
      InOrderKept(own, cap);
      LatestServableIff(cap, vectors, g, decisionTs);
    }
  }

  lemma InOrderNothingNewer(own: seq<Vector>, cutoff: int)
    requires own != [] && SortedBy(own, VectorLe)
    ensures NothingNewer(own, cutoff, own[|own| - 1])
  {
    forall u | u in own ensures VectorLe(u, own[|own| - 1]) {
      var i :| 0 <= i < |own| && own[i] == u;
      assert i < |own| - 1 ==> VectorLe(own[i], own[|own| - 1]);
    }
  }

  lemma InOrderKept(own: seq<Vector>, cap: Option<int>)
    requires own != [] && SortedBy(own, VectorLe)
    ensures own[|own| - 1] in CapTo(PutEach(own, VectorLe), cap)
  {
    FrontLast(own);
    LastPut(own[..|own| - 1], own[|own| - 1]);
    LastIsKept(PutEach(own, VectorLe), cap);
  }

  lemma LastIsKept(rows: seq<Vector>, cap: Option<int>)
    ensures Last(rows).Some? ==> Last(rows).value in CapTo(rows, cap)
  {
    if rows != [] {
      var kept := CapTo(rows, cap);
      assert kept[|kept| - 1] == rows[|rows| - 1];
    }
  }

  lemma KeptIsCapped(own: seq<Vector>, cap: Option<int>)
    ensures Kept(own, cap) == CapTo(PutEach(own, VectorLe), cap)
  {
    if cap.Some? && 0 < cap.value {
      KeptIsNewest(own, cap.value);
    }
  }

  lemma LastOfKnownIff(rows: seq<Vector>, v: Vector, cutoff: int)
    requires Strict(rows, VectorLe) && KnownBy(cutoff)(v)
    ensures Last(Filter(rows, KnownBy(cutoff))) == Some(v) <==> v in rows && NothingNewer(rows, cutoff, v)
  {
    if v in rows && NothingNewer(rows, cutoff, v) {
      var i :| 0 <= i < |rows| && rows[i] == v;
      assert forall j :: i < j < |rows| ==> !KnownBy(cutoff)(rows[j]);
      LastKnownAt(rows, i, cutoff);
    } else if Last(Filter(rows, KnownBy(cutoff))) == Some(v) {
      NothingNewerThanLast(rows, v, cutoff);
    }
  }

  lemma LastKnownAt(rows: seq<Vector>, i: nat, cutoff: int)
    requires i < |rows| && KnownBy(cutoff)(rows[i]) && forall j :: i < j < |rows| ==> !KnownBy(cutoff)(rows[j])
    ensures Last(Filter(rows, KnownBy(cutoff))) == Some(rows[i])
  {
    var front, rest := rows[..i + 1], rows[i + 1..];
    assert rows == front + rest;
    forall k | 0 <= k < |rest| ensures !KnownBy(cutoff)(rest[k]) {
      assert rest[k] == rows[i + 1 + k];
    }
    LastKnown(front, rows[i], cutoff);
    LaterUnknown(front, rest, cutoff);
  }

  lemma LaterUnknown(rows: seq<Vector>, later: seq<Vector>, cutoff: int)
    requires forall k :: 0 <= k < |later| ==> !KnownBy(cutoff)(later[k])
    ensures Filter(rows + later, KnownBy(cutoff)) == Filter(rows, KnownBy(cutoff))
  {
    FilterAppend(rows, later, KnownBy(cutoff));
    FilterNone(later, KnownBy(cutoff));
    assert Filter(rows, KnownBy(cutoff)) + [] == Filter(rows, KnownBy(cutoff));
  }

  lemma {:induction false} NothingNewerThanLast(rows: seq<Vector>, v: Vector, cutoff: int)
    requires Strict(rows, VectorLe) && Last(Filter(rows, KnownBy(cutoff))) == Some(v)
    ensures v in rows && NothingNewer(rows, cutoff, v)
  {
    var front, last := rows[..|rows| - 1], rows[|rows| - 1];
    FrontLast(rows);
    FilterAppend(front, [last], KnownBy(cutoff));
    FilterOne(last, KnownBy(cutoff));
    if KnownBy(cutoff)(last) {
      forall u | u in rows && KnownBy(cutoff)(u) ensures VectorLe(u, v) {
      }
    } else {
      assert Filter(front, KnownBy(cutoff)) + [] == Filter(front, KnownBy(cutoff));
      NothingNewerThanLast(front, v, cutoff);
    }
  }

  /** What is newer than a kept vector is kept, or a vector of the same times is. */
  lemma NewerKept(own: seq<Vector>, v: Vector, cap: Option<int>, cutoff: int)
    ensures v in Kept(own, cap) ==> (NothingNewer(Kept(own, cap), cutoff, v) <==> NothingNewer(own, cutoff, v))
  {
    var rows := PutEach(own, VectorLe);
    VectorOrder();
    KeptIsCapped(own, cap);
    PutEachStrict(own, VectorLe);
    forall u ensures u in rows ==> u in own {
      PutEachMembers(own, VectorLe, u);
    }
    if v in Kept(own, cap) && NothingNewer(Kept(own, cap), cutoff, v) {
      forall u | u in own && KnownBy(cutoff)(u) ensures VectorLe(u, v) {
        var held := RankHeld(own, VectorLe, u);
        KeptOrBelow(rows, cap, held, v);
      }
    }
  }

  lemma KeptOrBelow(rows: seq<Vector>, cap: Option<int>, u: Vector, v: Vector)
    requires Strict(rows, VectorLe) && u in rows && v in CapTo(rows, cap)
    ensures u in CapTo(rows, cap) || VectorLe(u, v)
  {
    var kept := CapTo(rows, cap);
    var i :| 0 <= i < |rows| && rows[i] == u;
    var j :| 0 <= j < |kept| && kept[j] == v;
    var n := |rows| - |kept|;
    assert kept == rows[n..];
    if n <= i {
      assert kept[i - n] == u;
    }
  }

  lemma LastKnown(rows: seq<Vector>, v: Vector, cutoff: int)
    requires Last(rows) == Some(v) && KnownBy(cutoff)(v)
    ensures Last(Filter(rows, KnownBy(cutoff))) == Some(v)
  {
    assert rows == rows[..|rows| - 1] + [v];
    FilterAppend(rows[..|rows| - 1], [v], KnownBy(cutoff));
    FilterOne(v, KnownBy(cutoff));
  }

  lemma LastPut(own: seq<Vector>, v: Vector)
    requires SortedBy(own + [v], VectorLe)
    ensures Last(PutEach(own + [v], VectorLe)) == Some(v)
  {
    VectorOrder();
    assert (own + [v])[..|own|] == own;
    PutEachStrict(own, VectorLe);
    var s := PutEach(own, VectorLe);
    forall i | 0 <= i < |s| ensures VectorLe(s[i], v) {
      PutEachMembers(own, VectorLe, s[i]);
      assert s[i] in s;
      var j :| 0 <= j < |own| && own[j] == s[i];
      assert VectorLe((own + [v])[j], (own + [v])[|own|]);
    }
    PutLast(s, v);
  }

  /** The primary key of the history. */
  predicate SameRow(a: Vector, b: Vector) {
    a.scope == b.scope && a.ts == b.ts && a.setName == b.setName && a.setVersion == b.setVersion
      && a.lineage == b.lineage
  }

  lemma UpsertedMembers(history: seq<Vector>, cap: Option<int>, v: Vector)
    ensures forall r :: r in Upserted(history, cap, v) ==> r == v || (r in history && !SameRow(r, v))
    ensures forall r :: r == v || (r in history && !SameRow(r, v)) ==>
      r in Upserted(history, cap, v) || (OfGroup(r, GroupOf(v)) && cap.Some? && 0 < cap.value)
  {
    var put := HistoryPut(history, v);
    FilterKeeps(history, OtherRow(v));
    FilterKeeps(put, Survives(put, cap, Some(GroupOf(v))));
    forall r ensures r in put <==> r == v || (r in history && !SameRow(r, v)) {
    }
  }

  class OnlineFeatureStore {
    const historyMaxRowsPerScope: Option<int>
    var latest: map<Group, Vector>
    var history: seq<Vector>

    constructor (cap: Option<int>)
      ensures historyMaxRowsPerScope == cap && latest == map[] && history == []
    {
      historyMaxRowsPerScope, latest, history := cap, map[], [];
    }

    method Upsert(fv: Vector)
      modifies this
      ensures latest == old(latest)[GroupOf(fv) := fv]
      ensures history == Upserted(old(history), historyMaxRowsPerScope, fv)
      ensures forall r :: r in history ==> r == fv || (r in old(history) && !SameRow(r, fv))
      ensures forall r :: r == fv || (r in old(history) && !SameRow(r, fv)) ==>
        r in history || (OfGroup(r, GroupOf(fv)) && historyMaxRowsPerScope.Some? && 0 < historyMaxRowsPerScope.value)
    {
      UpsertedMembers(history, historyMaxRowsPerScope, fv);
      latest := latest[GroupOf(fv) := fv];
      history := Filter(history, OtherRow(fv)) + [fv];
      var deleted := PruneHistory(Some(GroupOf(fv)));
    }

    /** Collect the rows that are too many in each selected group, then delete them. */
    method PruneHistory(only: Option<Group>) returns (deleted: nat)
      modifies this`history
      ensures history == Pruned(old(history), historyMaxRowsPerScope, only)
      ensures deleted == |old(history)| - |history|
    {
      var excess: seq<Vector> := [];
      var todo := set r | r in history && Selected(only, r) :: GroupOf(r);
      ghost var groups := todo;
      while todo != {}
        invariant todo <= groups && history == old(history)
        invariant Collected(history, historyMaxRowsPerScope, groups - todo, excess)
        decreases todo
      {
        var g :| g in todo;
        var rows := Excess(history, historyMaxRowsPerScope, g);
        CollectedNext(history, historyMaxRowsPerScope, groups - todo, excess, g);
        excess := excess + rows;
        todo := todo - {g};
        assert groups - todo == groups - (todo + {g}) + {g};
      }
      DeletedEverywhere(history, historyMaxRowsPerScope, only, groups, excess);
      var kept := Filter(history, (r: Vector) => !Deleted(excess, r));
      deleted := |history| - |kept|;
      history := kept;
    }

    method GetLatestServable(g: Group, decisionTs: int) returns (answer: Option<Vector>)
      ensures answer == LatestServable(latest, g, decisionTs)
      ensures answer.Some? <==> g in latest && latest[g].ts <= decisionTs && latest[g].availableTs <= decisionTs
      ensures answer.Some? ==> answer.value == latest[g]
    {
      answer := if g in latest && KnownBy(decisionTs)(latest[g]) then Some(latest[g]) else None;
    }

    method GetRecentHistory(g: Group, limit: int) returns (rows: seq<Vector>)
      ensures rows == RecentHistory(history, g, limit)
      ensures 1 <= limit ==> NewestFirst(rows, history, g, limit)
      ensures limit == 0 ==> rows == []
      ensures limit < 0 ==> NewestFirst(rows, history, g, |rows| + 1)
    {
      RankedCounts(history, g);
      if limit < 0 {
        assert LastN(Ranked(history, g), |Ranked(history, g)| + 1) == Ranked(history, g);
        NewestOfSorted(Ranked(history, g), history, g, |Ranked(history, g)| + 1);
      } else if limit != 0 {
        NewestOfSorted(Ranked(history, g), history, g, limit);
      }
      rows := RecentHistory(history, g, limit);
    }

    method GetSnapshotBefore(g: Group, cutoff: int) returns (answer: Option<Vector>)
      ensures answer == SnapshotBefore(history, g, cutoff)
      ensures NewestKnown(history, g, cutoff, answer)
    {
      RankedCounts(history, g);
      RankedMembers(history, g);
      LastIsNewestKnown(Ranked(history, g), history, g, cutoff);
      answer := Last(Filter(Ranked(history, g), KnownBy(cutoff)));
    }
  }

  /** Of the groups so far, exactly the rows that are too many are collected. */
  ghost predicate Collected(history: seq<Vector>, cap: Option<int>, done: set<Group>, excess: seq<Vector>) {
    forall d :: d in excess <==> GroupOf(d) in done && d in Excess(history, cap, GroupOf(d))
  }

  lemma CollectedNext(history: seq<Vector>, cap: Option<int>, done: set<Group>, excess: seq<Vector>, g: Group)
    requires Collected(history, cap, done, excess)
    ensures Collected(history, cap, done + {g}, excess + Excess(history, cap, g))
  {
    RankedMembers(history, g);
    assert forall d :: d in Excess(history, cap, g) ==> d in Ranked(history, g);
  }

  /** Deleting the collected rows deletes from every selected group what is too much in it. */
  lemma DeletedEverywhere(history: seq<Vector>, cap: Option<int>, only: Option<Group>, groups: set<Group>,
                          excess: seq<Vector>)
    requires groups == set r | r in history && Selected(only, r) :: GroupOf(r)
    requires Collected(history, cap, groups, excess)
    ensures Filter(history, (r: Vector) => !Deleted(excess, r)) == Pruned(history, cap, only)
  {
    forall i | 0 <= i < |history| ensures !Deleted(excess, history[i]) <==> Survives(history, cap, only)(history[i]) {
      var r := history[i];
      var own := Excess(history, cap, GroupOf(r));
      if j :| 0 <= j < |excess| && SameKey(excess[j], r) {
        assert excess[j] in excess && GroupOf(excess[j]) == GroupOf(r);
        assert excess[j] in own;
      }
      if Selected(only, r) && Deleted(own, r) {
        var j :| 0 <= j < |own| && SameKey(own[j], r);
        assert own[j] in own && GroupOf(own[j]) == GroupOf(r) && GroupOf(r) in groups;
        assert own[j] in excess;
      }
    }
    FilterSameBy(history, (r: Vector) => !Deleted(excess, r), Survives(history, cap, only));
  }
}
