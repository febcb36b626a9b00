/** The in-memory online store, which forgets nothing (`online_store_memory.py`, `pit.py`). */
module OnlineStoreMemory {
  import opened Sequences
  import opened Sorting
  import opened FeatureModel
  import opened TopK
  import opened OnlineStore

  /** `x` goes after the last element it is not below, so among ties it comes last. */
  function Snoc<T>(s: seq<T>, x: T, le: (T, T) -> bool): seq<T> {
    if s == [] then [x]
    else if le(s[0], x) then [s[0]] + Snoc(s[1..], x, le)
    else [x] + s
  }

  lemma {:induction false} InsertSnoc<T(!new)>(a: T, s: seq<T>, x: T, le: (T, T) -> bool)
    requires TotalPreorder(le) && SortedBy(s, le)
    ensures Insert(a, Snoc(s, x, le), le) == Snoc(Insert(a, s, le), x, le)
  {
    if s != [] {
      if le(s[0], x) {
        assert Transitive(le, a, s[0], x);
        InsertSnoc(a, s[1..], x, le);
      } else {
        assert Total(le, s[0], x) && Transitive(le, a, x, s[0]);
      }
    }
  }

  /** A stable sort puts what comes last behind everything it ties with. */
  lemma {:induction false} SortSnoc<T(!new)>(s: seq<T>, x: T, le: (T, T) -> bool)
    requires TotalPreorder(le)
    ensures Sort(s + [x], le) == Snoc(Sort(s, le), x, le)
  {
    if s == [] {
      assert [] + [x] == [x] && [x][1..] == [];
    } else {
      assert (s + [x])[1..] == s[1..] + [x];
      SortSnoc(s[1..], x, le);
      SortSorted(s[1..], le);
      InsertSnoc(s[0], Sort(s[1..], le), x, le);
    }
  }

  /** Sorting after every append is sorting once. */
  lemma SortAppended<T(!new)>(s: seq<T>, x: T, le: (T, T) -> bool)
    requires TotalPreorder(le)
    ensures Sort(Sort(s, le) + [x], le) == Sort(s + [x], le)
  {
    SortSorted(s, le);
    SortSnoc(s, x, le);
    SortSnoc(Sort(s, le), x, le);
    SortIdentity(Sort(s, le), le);
  }

  lemma VectorsAppended(own: seq<Vector>, v: Vector)
    ensures Sort(Sort(own, VectorLe) + [v], VectorLe) == Sort(own + [v], VectorLe)
  {
    VectorOrder();
    SortAppended(own, v, VectorLe);
  }

  type Histories = map<Group, seq<Vector>>

  function HistoryIn(histories: Histories, g: Group): seq<Vector> {
    if g in histories then histories[g] else []
  }

  function Remember(histories: Histories, v: Vector): Histories {
    histories[GroupOf(v) := Sort(HistoryIn(histories, GroupOf(v)) + [v], VectorLe)]
  }

  function RememberAll(vectors: seq<Vector>): Histories {
    if vectors == [] then map[] else Remember(RememberAll(vectors[..|vectors| - 1]), vectors[|vectors| - 1])
  }

  lemma Remembered(histories: Histories, v: Vector, g: Group)
    ensures HistoryIn(Remember(histories, v), g)
         == if GroupOf(v) == g then Sort(HistoryIn(histories, g) + [v], VectorLe) else HistoryIn(histories, g)
  {
  }

  /** A group's history is everything upserted to it, in order of time, ties in order of arrival. */
  lemma {:induction false} HistoryIsSorted(vectors: seq<Vector>, g: Group)
    ensures HistoryIn(RememberAll(vectors), g) == Sort(OwnOf(vectors, g), VectorLe)
  {
    if vectors != [] {
      var front, v := vectors[..|vectors| - 1], vectors[|vectors| - 1];
      HistoryIsSorted(front, g);
      OwnLast(vectors, g);
      Remembered(RememberAll(front), v, g);
      if GroupOf(v) == g {
        VectorsAppended(OwnOf(front, g), v);
      }
    }
  }

  /** `eligible[-1]`. */
  function SnapshotIn(history: seq<Vector>, cutoff: int): Option<Vector> {
    Last(Filter(history, KnownBy(cutoff)))
  }

  function MemorySnapshot(vectors: seq<Vector>, g: Group, cutoff: int): Option<Vector> {
    SnapshotIn(HistoryIn(RememberAll(vectors), g), cutoff)
  }

  lemma MemorySnapshotIs(vectors: seq<Vector>, g: Group, cutoff: int)
    ensures MemorySnapshot(vectors, g, cutoff) == Last(Sort(Filter(OwnOf(vectors, g), KnownBy(cutoff)), VectorLe))
  {
    HistoryIsSorted(vectors, g);
    VectorOrder();
    SortFilter(OwnOf(vectors, g), VectorLe, KnownBy(cutoff));
  }

  ghost predicate IsNewestKnown(vectors: seq<Vector>, g: Group, cutoff: int, best: Vector) {
    && best in vectors && GroupOf(best) == g && KnownBy(cutoff)(best)
    && forall v :: v in vectors && GroupOf(v) == g && KnownBy(cutoff)(v) ==> VectorLe(v, best)
  }

  /** The answer is a greatest vector known by the cutoff, and there is none only if none was known. */
  lemma MemorySnapshotIsGreatest(vectors: seq<Vector>, g: Group, cutoff: int)
    ensures MemorySnapshot(vectors, g, cutoff).Some?
      ==> IsNewestKnown(vectors, g, cutoff, MemorySnapshot(vectors, g, cutoff).value)
    ensures MemorySnapshot(vectors, g, cutoff).None?
      ==> forall v :: v in vectors && GroupOf(v) == g ==> !KnownBy(cutoff)(v)
  {
    MemorySnapshotIs(vectors, g, cutoff);
    NewestOfKnown(vectors, g, cutoff);
  }

  lemma NewestOfKnown(vectors: seq<Vector>, g: Group, cutoff: int)
    ensures var newest := Last(Sort(Filter(OwnOf(vectors, g), KnownBy(cutoff)), VectorLe));
            if newest.Some? then IsNewestKnown(vectors, g, cutoff, newest.value)
            else forall v :: v in vectors && GroupOf(v) == g ==> !KnownBy(cutoff)(v)
  {
    var known := Filter(OwnOf(vectors, g), KnownBy(cutoff));
    KnownMembers(vectors, g, cutoff);
    if known != [] {
      NewestIn(known);
    } else {
      NoneKnown(vectors, g, cutoff);
    }
  }

  lemma NoneKnown(vectors: seq<Vector>, g: Group, cutoff: int)
    requires Filter(OwnOf(vectors, g), KnownBy(cutoff)) == []
    ensures forall v :: v in vectors && GroupOf(v) == g ==> !KnownBy(cutoff)(v)
  {
    KnownMembers(vectors, g, cutoff);
    forall v | v in vectors && GroupOf(v) == g ensures !KnownBy(cutoff)(v) {
      assert v !in Filter(OwnOf(vectors, g), KnownBy(cutoff));
    }
  }

  lemma KnownMembers(vectors: seq<Vector>, g: Group, cutoff: int)
    ensures forall v ::
      v in Filter(OwnOf(vectors, g), KnownBy(cutoff)) <==> v in vectors && GroupOf(v) == g && KnownBy(cutoff)(v)
  {
    FilterKeeps(vectors, InGroup(g));
    FilterKeeps(OwnOf(vectors, g), KnownBy(cutoff));
  }

  lemma NewestIn(vectors: seq<Vector>)
    requires vectors != []
    ensures Sort(vectors, VectorLe)[|vectors| - 1] in vectors
    ensures forall v :: v in vectors ==> VectorLe(v, Sort(vectors, VectorLe)[|vectors| - 1])
  {
    VectorOrder();
    SortGreatest(vectors, VectorLe);
  }

  /** Vectors not yet known at the cutoff never change the answer, whatever else they are. */
  lemma {:induction false} LaterVectorsKeepSnapshot(vectors: seq<Vector>, later: seq<Vector>, g: Group, cutoff: int)
    requires forall i :: 0 <= i < |later| ==> !KnownBy(cutoff)(later[i])
    ensures MemorySnapshot(vectors + later, g, cutoff) == MemorySnapshot(vectors, g, cutoff)
  {
    MemorySnapshotIs(vectors + later, g, cutoff);
    MemorySnapshotIs(vectors, g, cutoff);
    FilterAppend(vectors, later, InGroup(g));
    var own := OwnOf(later, g);
    FilterAppend(OwnOf(vectors, g), own, KnownBy(cutoff));
    forall i | 0 <= i < |own| ensures !KnownBy(cutoff)(own[i]) {
      FilterMembers(later, InGroup(g), own[i]);
    }
    FilterNone(own, KnownBy(cutoff));
    assert Filter(OwnOf(vectors, g), KnownBy(cutoff)) + [] == Filter(OwnOf(vectors, g), KnownBy(cutoff));
  }

  /**
    * A servable latest vector is the answer before the same time exactly when no known vector of its
    * group is newer.
    */
  lemma MemoryLatestIff(vectors: seq<Vector>, g: Group, decisionTs: int)
    ensures var hit := LatestServable(LatestAll(vectors), g, decisionTs);
            hit.Some? ==>
              (MemorySnapshot(vectors, g, decisionTs) == hit <==>
                NothingNewer(OwnOf(vectors, g), decisionTs, hit.value))
  {
    var hit := LatestServable(LatestAll(vectors), g, decisionTs);
    if hit.Some? {
      var own, v := OwnOf(vectors, g), hit.value;
      LatestIsLast(vectors, g);
      FrontLast(own);
      MemorySnapshotIsGreatest(vectors, g, decisionTs);
      FilterKeeps(vectors, InGroup(g));
      if NothingNewer(own, decisionTs, v) {
        MemorySnapshotIs(vectors, g, decisionTs);
        NewestArrivedLast(own[..|own| - 1], v, decisionTs);
      }
    }
  }

  /** Among ties a stable sort puts last what arrived last. */
  lemma NewestArrivedLast(front: seq<Vector>, v: Vector, cutoff: int)
    requires KnownBy(cutoff)(v) && NothingNewer(front + [v], cutoff, v)
    ensures Last(Sort(Filter(front + [v], KnownBy(cutoff)), VectorLe)) == Some(v)
  {
    var known := Filter(front, KnownBy(cutoff));
    FilterAppend(front, [v], KnownBy(cutoff));
    FilterOne(v, KnownBy(cutoff));
    FilterKeeps(front, KnownBy(cutoff));
    VectorOrder();
    SortSnoc(known, v, VectorLe);
    SortMembers(known, VectorLe);
    var sorted := Sort(known, VectorLe);
    forall i | 0 <= i < |sorted| ensures VectorLe(sorted[i], v) {
      assert sorted[i] in sorted;
      assert sorted[i] in front + [v];
    }
    SnocLast(sorted, v);
  }

  lemma {:induction false} SnocLast(s: seq<Vector>, v: Vector)
    requires forall i :: 0 <= i < |s| ==> VectorLe(s[i], v)
    ensures Snoc(s, v, VectorLe) == s + [v]
  {
    if s != [] {
      SnocLast(s[1..], v);
    }
  }

  /** If a group's vectors came in order, a servable latest vector is the answer before the same time. */
  lemma MemoryLatestIsSnapshot(vectors: seq<Vector>, g: Group, decisionTs: int)
    requires SortedBy(OwnOf(vectors, g), VectorLe)
    ensures var hit := LatestServable(LatestAll(vectors), g, decisionTs);
            hit.Some? ==> MemorySnapshot(vectors, g, decisionTs) == hit
  {
    var hit := LatestServable(LatestAll(vectors), g, decisionTs);
    if hit.Some? {
      var own := OwnOf(vectors, g);
      LatestIsLast(vectors, g);
      MemoryLatestIff(vectors, g, decisionTs);
      InOrderNothingNewer(own, decisionTs);
    }
  }

  /** `history[-limit:]`: nothing is cut off for a limit of zero, and a negative one cuts at the front. */
  function PythonTail(s: seq<Vector>, limit: int): seq<Vector> {
    if 0 < limit then LastN(s, limit) else if -limit <= |s| then s[-limit..] else []
  }

  function MemoryRecent(history: seq<Vector>, limit: int): seq<Vector> {
    Reversed(PythonTail(history, limit))
  }

  lemma TailsAgreeIff(rows: seq<Vector>, limit: int)
    ensures MemoryRecent(rows, limit) == Reversed(if limit < 0 then rows else LastN(rows, limit))
      <==> 1 <= limit || rows == []
  {
    if limit < 0 && rows != [] {
      assert |PythonTail(rows, limit)| < |rows|;
    } else if limit == 0 {
      assert |PythonTail(rows, limit)| == |rows|;
    }
  }

  /** On rows never rewritten the two stores agree about recent history exactly for limits of at least one. */
  lemma RecentHistoriesAgreeIff(vectors: seq<Vector>, g: Group, limit: int)
    requires Consistent(vectors, g) && NoRewrites(OwnOf(vectors, g))
    ensures MemoryRecent(HistoryIn(RememberAll(vectors), g), limit) == RecentHistory(UpsertAll(None, vectors), g, limit)
       <==> 1 <= limit || OwnOf(vectors, g) == []
  {
    HistoryIsSorted(vectors, g);
    RankedUpserts(None, vectors, g);
    PutEachIsSort(OwnOf(vectors, g));
    TailsAgreeIff(Sort(OwnOf(vectors, g), VectorLe), limit);
  }

  ghost predicate NoRewrites(own: seq<Vector>) {
    forall i, j :: 0 <= i < j < |own| ==> !Ties(own[i], own[j], VectorLe)
  }

  lemma {:induction false} PutEachIsSort(own: seq<Vector>)
    requires NoRewrites(own)
    ensures PutEach(own, VectorLe) == Sort(own, VectorLe)
  {
    if own != [] {
      var front, v := own[..|own| - 1], own[|own| - 1];
      PutEachIsSort(front);
      VectorOrder();
      PutEachStrict(front, VectorLe);
      forall i | 0 <= i < |front| ensures NotTied(v, VectorLe)(front[i]) {
        assert front[i] == own[i];
      }
      FilterAll(front, NotTied(v, VectorLe));
      SortPut(front, v, VectorLe);
      FrontLast(own);
    }
  }

  lemma OwnCounts(rows: seq<Vector>, g: Group)
    requires forall v :: v in rows ==> OfGroup(v, g)
    ensures forall v :: multiset(rows)[v] == if OfGroup(v, g) then multiset(rows)[v] else 0
  {
    forall v | !OfGroup(v, g) ensures multiset(rows)[v] == 0 {
      assert v !in rows;
    }
  }

  lemma RecentIsNewest(own: seq<Vector>, g: Group, limit: int)
    requires SortedBy(own, VectorLe) && forall v :: v in own ==> OfGroup(v, g)
    ensures NewestFirst(MemoryRecent(own, limit), own, g,
                        if 0 < limit then limit else |MemoryRecent(own, limit)|)
  {
    var n := if 0 < limit then limit else |MemoryRecent(own, limit)|;
    OwnCounts(own, g);
    if n == 0 {
      assert MemoryRecent(own, limit) == [];
    } else {
      assert PythonTail(own, limit) == LastN(own, n);
      NewestOfSorted(own, own, g, n);
    }
  }

  class MemoryOnlineFeatureStore {
    var latest: map<Group, Vector>
    var history: Histories

    /** Each group's list holds that group's vectors, oldest first. */
    ghost predicate Valid()
      reads this
    {
      forall g :: g in history ==> SortedBy(history[g], VectorLe) && forall v :: v in history[g] ==> OfGroup(v, g)
    }

    constructor ()
      ensures Valid() && latest == map[] && history == map[]
    {
      latest, history := map[], map[];
    }

    method Upsert(fv: Vector)
      requires Valid()
      modifies this
      ensures Valid()
      ensures multiset(HistoryIn(history, GroupOf(fv))) == multiset(HistoryIn(old(history), GroupOf(fv))) + multiset{fv}
      ensures forall g :: g != GroupOf(fv) ==> HistoryIn(history, g) == HistoryIn(old(history), g)
      ensures latest == old(latest)[GroupOf(fv) := fv]
      ensures history == Remember(old(history), fv)
    {
      var key := GroupOf(fv);
      latest := latest[key := fv];
      var rows := HistoryIn(history, key) + [fv];
      VectorOrder();
      SortSorted(rows, VectorLe);
      SortMembers(rows, VectorLe);
      history := history[key := Sort(rows, VectorLe)];
    }

    method GetLatestServable(g: Group, decisionTs: int) returns (answer: Option<Vector>)
      ensures answer == LatestServable(latest, g, decisionTs)
      ensures answer.Some? <==> g in latest && latest[g].ts <= decisionTs && latest[g].availableTs <= decisionTs
      ensures answer.Some? ==> answer.value == latest[g]
    {
      answer := if g in latest && KnownBy(decisionTs)(latest[g]) then Some(latest[g]) else None;
    }

    method GetRecentHistory(g: Group, limit: int) returns (rows: seq<Vector>)
      requires Valid()
      ensures rows == MemoryRecent(HistoryIn(history, g), limit)
      ensures 1 <= limit ==> NewestFirst(rows, HistoryIn(history, g), g, limit)
      ensures limit <= 0 ==> NewestFirst(rows, HistoryIn(history, g), g, |rows|)
      ensures limit <= 0 ==>
        |rows| == if |HistoryIn(history, g)| < -limit then 0 else |HistoryIn(history, g)| + limit
    {
      RecentIsNewest(HistoryIn(history, g), g, limit);
      rows := Reversed(PythonTail(HistoryIn(history, g), limit));
    }

    method GetSnapshotBefore(g: Group, cutoff: int) returns (answer: Option<Vector>)
      requires Valid()
      ensures answer == SnapshotIn(HistoryIn(history, g), cutoff)
      ensures NewestKnown(HistoryIn(history, g), g, cutoff, answer)
    {
      LastIsNewestKnown(HistoryIn(history, g), HistoryIn(history, g), g, cutoff);
      var eligible := Filter(HistoryIn(history, g), KnownBy(cutoff));
      answer := if eligible == [] then None else Some(eligible[|eligible| - 1]);
    }
  }
}
