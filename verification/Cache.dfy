/** The bounded cache of feature vectors, by symbol and time (`cache.py`). */
module Cache {
  import opened Sequences
  import opened Sorting
  import opened FeatureModel
  import opened TopK

  datatype Entry = Entry(ts: int, fv: Vector)

  predicate TsLe(a: Entry, b: Entry) {
    a.ts <= b.ts
  }

  function EntryOf(fv: Vector): Entry {
    Entry(fv.ts, fv)
  }

  function EntriesOf(data: map<string, seq<Entry>>, symbol: string): seq<Entry> {
    if symbol in data then data[symbol] else []
  }

  /** `od[ts] = fv` on an ordered dictionary: in place, or at the end. */
  function SetItem(od: seq<Entry>, e: Entry): seq<Entry> {
    if od == [] then [e]
    else if od[0].ts == e.ts then [e] + od[1..]
    else [od[0]] + SetItem(od[1..], e)
  }

  lemma TsOrder()
    ensures TotalPreorder(TsLe)
  {
  }

  lemma {:induction false} SetItemMembers(od: seq<Entry>, e: Entry)
    requires Strict(od, TsLe)
    ensures forall x :: x in SetItem(od, e) <==> x == e || (x in od && x.ts != e.ts)
    ensures forall i, j :: 0 <= i < j < |SetItem(od, e)| ==> SetItem(od, e)[i].ts != SetItem(od, e)[j].ts
  {
    if od != [] {
      assert od == [od[0]] + od[1..];
      if od[0].ts != e.ts {
        SetItemMembers(od[1..], e);
        var rest := SetItem(od[1..], e);
        forall j | 0 <= j < |rest| ensures od[0].ts != rest[j].ts {
          assert rest[j] in rest;
        }
      }
    }
  }

  /** Setting an item and sorting by time is putting it in its place. */
  lemma SetItemSorted(od: seq<Entry>, e: Entry)
    requires Strict(od, TsLe)
    ensures Sort(SetItem(od, e), TsLe) == Put(od, e, TsLe)
    ensures od == [] || od[|od| - 1].ts <= e.ts ==> SetItem(od, e) == Put(od, e, TsLe)
  {
    TsOrder();
    SetItemMembers(od, e);
    PutMembers(od, e, TsLe);
    PutStrict(od, e, TsLe);
    var items := SetItem(od, e);
    var sorted := Sort(items, TsLe);
    SortSorted(items, TsLe);
    SortMembers(items, TsLe);
    DistinctStrict(items, sorted);
    StrictUnique(sorted, Put(od, e, TsLe), TsLe);
    if od == [] || od[|od| - 1].ts <= e.ts {
      SetItemLast(od, e);
    }
  }

  lemma DistinctStrict(s: seq<Entry>, sorted: seq<Entry>)
    requires SortedBy(sorted, TsLe) && multiset(s) == multiset(sorted)
    requires forall i, j :: 0 <= i < j < |s| ==> s[i].ts != s[j].ts
    ensures Strict(sorted, TsLe)
  {
    DistinctPermutation(s, sorted);
    forall i, j | 0 <= i < j < |sorted| ensures sorted[i].ts != sorted[j].ts {
      assert sorted[i] in multiset(s) && sorted[j] in multiset(s);
      var k :| 0 <= k < |s| && s[k] == sorted[i];
      var l :| 0 <= l < |s| && s[l] == sorted[j];
      assert k != l;
    }
  }

  lemma {:induction false} SetItemLast(od: seq<Entry>, e: Entry)
    requires Strict(od, TsLe) && (od == [] || od[|od| - 1].ts <= e.ts)
    ensures SetItem(od, e) == Put(od, e, TsLe)
  {
    if od != [] && od[0].ts != e.ts {
      assert |od| == 1 || od[0].ts <= od[|od| - 1].ts;
      SetItemLast(od[1..], e);
    }
  }

  function CachePut(data: map<string, seq<Entry>>, capacity: nat, fv: Vector): map<string, seq<Entry>> {
    data[fv.symbol := LastN(Put(EntriesOf(data, fv.symbol), EntryOf(fv), TsLe), capacity)]
  }

  /** The cache after some puts. */
  function CacheAfter(capacity: nat, puts: seq<Vector>): map<string, seq<Entry>> {
    if puts == [] then map[] else CachePut(CacheAfter(capacity, puts[..|puts| - 1]), capacity, puts[|puts| - 1])
  }

  function EntriesFor(puts: seq<Vector>, symbol: string): seq<Entry> {
    if puts == [] then []
    else
      var front, fv := EntriesFor(puts[..|puts| - 1], symbol), puts[|puts| - 1];
      if fv.symbol == symbol then front + [EntryOf(fv)] else front
  }

  /** An unbounded cache: every time ever put for the symbol, in order, with what was put there last. */
  function Unbounded(puts: seq<Vector>, symbol: string): seq<Entry> {
    PutEach(EntriesFor(puts, symbol), TsLe)
  }

  /** What was last put for a symbol and a time. */
  function LastPut(puts: seq<Vector>, symbol: string, ts: int): Option<Vector> {
    if puts == [] then None
    else
      var fv := puts[|puts| - 1];
      if fv.symbol == symbol && fv.ts == ts then Some(fv) else LastPut(puts[..|puts| - 1], symbol, ts)
  }

  lemma {:induction false} CacheKeeps(capacity: nat, puts: seq<Vector>, symbol: string)
    ensures EntriesOf(CacheAfter(capacity, puts), symbol) == KeepEach(EntriesFor(puts, symbol), capacity, TsLe)
  {
    if puts != [] {
      var front, fv := puts[..|puts| - 1], puts[|puts| - 1];
      CacheKeeps(capacity, front, symbol);
      if fv.symbol == symbol {
        var entries := EntriesFor(puts, symbol);
        assert entries[..|entries| - 1] == EntriesFor(front, symbol) && entries[|entries| - 1] == EntryOf(fv);
      }
    }
  }

  /** After any puts in any order of time, a symbol has the `capacity` greatest times ever put for it. */
  lemma CacheIsTopK(capacity: nat, puts: seq<Vector>, symbol: string)
    ensures EntriesOf(CacheAfter(capacity, puts), symbol) == LastN(Unbounded(puts, symbol), capacity)
    ensures Strict(Unbounded(puts, symbol), TsLe)
  {
    TsOrder();
    CacheKeeps(capacity, puts, symbol);
    KeptIsTopK(EntriesFor(puts, symbol), capacity, TsLe);
    PutEachStrict(EntriesFor(puts, symbol), TsLe);
  }

  /** The unbounded cache is the map from times to what was put last. */
  lemma {:induction false} UnboundedIsLastPut(puts: seq<Vector>, symbol: string, e: Entry)
    ensures e in Unbounded(puts, symbol) <==> LastPut(puts, symbol, e.ts) == Some(e.fv)
  {
    if puts != [] {
      var front, fv := puts[..|puts| - 1], puts[|puts| - 1];
      UnboundedIsLastPut(front, symbol, e);
      if fv.symbol == symbol {
        var entries := EntriesFor(puts, symbol);
        assert entries[..|entries| - 1] == EntriesFor(front, symbol) && entries[|entries| - 1] == EntryOf(fv);
        TsOrder();
        PutEachStrict(EntriesFor(front, symbol), TsLe);
        PutMembers(Unbounded(front, symbol), EntryOf(fv), TsLe);
        LastPutTs(front, symbol, e.ts);
      }
    }
  }

  lemma {:induction false} LastPutTs(puts: seq<Vector>, symbol: string, ts: int)
    ensures LastPut(puts, symbol, ts).Some? ==> LastPut(puts, symbol, ts).value.ts == ts
  {
    if puts != [] {
      LastPutTs(puts[..|puts| - 1], symbol, ts);
    }
  }

  /** The last entry not after the target. */
  function AsOf(entries: seq<Entry>, target: int): Option<Entry> {
    if entries == [] then None
    else if entries[|entries| - 1].ts <= target then Some(entries[|entries| - 1])
    else AsOf(entries[..|entries| - 1], target)
  }

  lemma {:induction false} AsOfIsGreatest(entries: seq<Entry>, target: int)
    requires Strict(entries, TsLe)
    ensures match AsOf(entries, target)
      case Some(e) => e in entries && e.ts <= target && forall x :: x in entries && x.ts <= target ==> x.ts <= e.ts
      case None => forall x :: x in entries ==> target < x.ts
  {
    if entries != [] {
      assert forall x :: x in entries <==> x in entries[..|entries| - 1] || x == entries[|entries| - 1];
      AsOfIsGreatest(entries[..|entries| - 1], target);
      forall x | x in entries ensures x.ts <= entries[|entries| - 1].ts {
        var i :| 0 <= i < |entries| && entries[i] == x;
        assert i == |entries| - 1 || TsLe(entries[i], entries[|entries| - 1]);
      }
    }
  }

  lemma {:induction false} AsOfKept(entries: seq<Entry>, k: nat, target: int)
    ensures AsOf(LastN(entries, k), target).Some? ==> AsOf(LastN(entries, k), target) == AsOf(entries, target)
  {
    if entries != [] && k != 0 {
      var front := entries[..|entries| - 1];
      assert LastN(entries, k)[..|LastN(entries, k)| - 1] == LastN(front, k - 1);
      AsOfKept(front, k - 1, target);
    }
  }

  /**
    * A hit of `get_at` is the answer of the unbounded cache: what was last put for the greatest time
    * not after the target. A miss means that everything kept is later than the target.
    */
  lemma GetAtRefinesUnbounded(capacity: nat, puts: seq<Vector>, symbol: string, target: int)
    ensures var kept := EntriesOf(CacheAfter(capacity, puts), symbol);
      match AsOf(kept, target)
      case Some(e) =>
        && e.ts <= target && LastPut(puts, symbol, e.ts) == Some(e.fv)
        && (forall ts :: e.ts < ts <= target ==> LastPut(puts, symbol, ts) == None)
      case None => forall x :: x in kept ==> target < x.ts
  {
    CacheIsTopK(capacity, puts, symbol);
    var all := Unbounded(puts, symbol);
    AsOfKept(all, capacity, target);
    AsOfIsGreatest(all, target);
    AsOfIsGreatest(LastN(all, capacity), target);
    if AsOf(LastN(all, capacity), target).Some? {
      var e := AsOf(all, target).value;
      UnboundedIsLastPut(puts, symbol, e);
      forall ts | e.ts < ts <= target ensures LastPut(puts, symbol, ts) == None {
        if LastPut(puts, symbol, ts).Some? {
          UnboundedIsLastPut(puts, symbol, Entry(ts, LastPut(puts, symbol, ts).value));
        }
      }
    }
  }

  ghost predicate WellKept(od: seq<Entry>, capacity: nat) {
    Strict(od, TsLe) && |od| <= capacity
  }

  /** What is kept for a symbol are vectors of that symbol, each under its own time. */
  ghost predicate OwnEntries(od: seq<Entry>, symbol: string) {
    forall i :: 0 <= i < |od| ==> od[i].fv.symbol == symbol && od[i].ts == od[i].fv.ts
  }

  lemma PutsKept(od: seq<Entry>, e: Entry, capacity: nat)
    requires WellKept(od, capacity)
    ensures Sort(SetItem(od, e), TsLe) == Put(od, e, TsLe)
    ensures od == [] || od[|od| - 1].ts <= e.ts ==> SetItem(od, e) == Put(od, e, TsLe)
    ensures var placed := Put(od, e, TsLe);
            && (if |placed| > capacity then placed[1..] else placed) == LastN(placed, capacity)
            && WellKept(LastN(placed, capacity), capacity)
  {
    TsOrder();
    SetItemSorted(od, e);
    PutStrict(od, e, TsLe);
    TailKept(Put(od, e, TsLe), capacity);
  }

  lemma TailKept(s: seq<Entry>, n: nat)
    requires Strict(s, TsLe)
    ensures WellKept(LastN(s, n), n)
    ensures |s| <= n + 1 ==> (if |s| > n then s[1..] else s) == LastN(s, n)
  {
  }

  /** The ways a put goes, and what is left when one entry too many is dropped. */
  method PutEntry(od: seq<Entry>, e: Entry, capacity: nat) returns (kept: seq<Entry>)
    requires WellKept(od, capacity)
    ensures kept == LastN(Put(od, e, TsLe), capacity) && WellKept(kept, capacity)
  {
    PutsKept(od, e, capacity);
    if od == [] || od[|od| - 1].ts <= e.ts {
      kept := SetItem(od, e);
    } else {
      kept := Sort(SetItem(od, e), TsLe);
    }
    if |kept| > capacity {
      kept := kept[1..];
    }
  }

  /** What a put leaves: the new vector and those of other times, but for the oldest when that is one too many. */
  lemma PutLeaves(od: seq<Entry>, fv: Vector, capacity: nat)
    requires WellKept(od, capacity) && OwnEntries(od, fv.symbol)
    ensures var kept := LastN(Put(od, EntryOf(fv), TsLe), capacity);
            && OwnEntries(kept, fv.symbol)
            && (forall x :: x in kept ==> x == Entry(fv.ts, fv) || (x in od && x.fv.ts != fv.ts))
            && (forall x :: (x in od && x.fv.ts != fv.ts) || x == Entry(fv.ts, fv) ==>
                  x in kept || (|kept| == capacity && forall y :: y in kept ==> x.ts < y.ts))
  {
    TsOrder();
    var placed := Put(od, EntryOf(fv), TsLe);
    PutMembers(od, EntryOf(fv), TsLe);
    PutStrict(od, EntryOf(fv), TsLe);
    OwnPut(od, EntryOf(fv), fv.symbol);
    TailMembers(placed, capacity);
  }

  lemma OwnPut(od: seq<Entry>, e: Entry, symbol: string)
    requires Strict(od, TsLe) && OwnEntries(od, symbol) && e.fv.symbol == symbol && e.ts == e.fv.ts
    ensures OwnEntries(Put(od, e, TsLe), symbol)
  {
    TsOrder();
    PutMembers(od, e, TsLe);
    var placed := Put(od, e, TsLe);
    forall i | 0 <= i < |placed| ensures placed[i].fv.symbol == symbol && placed[i].ts == placed[i].fv.ts {
      assert placed[i] in placed;
    }
  }

  lemma TailMembers(s: seq<Entry>, n: nat)
    requires Strict(s, TsLe)
    ensures forall x :: x in LastN(s, n) ==> x in s
    ensures forall x :: x in s ==>
      x in LastN(s, n) || (|LastN(s, n)| == n && forall y :: y in LastN(s, n) ==> x.ts < y.ts)
  {
    var tail := LastN(s, n);
    forall i | |s| - |tail| <= i < |s| ensures s[i] in tail {
      assert tail[i - (|s| - |tail|)] == s[i];
    }
    forall x | x in s && x !in tail ensures |tail| == n && forall y :: y in tail ==> x.ts < y.ts {
      var i :| 0 <= i < |s| && s[i] == x;
      forall y | y in tail ensures x.ts < y.ts {
        var j :| 0 <= j < |tail| && tail[j] == y;
        assert s[|s| - |tail| + j] == y;
      }
    }
  }

  class FeatureCache {
    const capacity: nat
    var data: map<string, seq<Entry>>

    ghost predicate Valid()
      reads this
    {
      forall symbol :: symbol in data ==> WellKept(data[symbol], capacity) && OwnEntries(data[symbol], symbol)
    }

    constructor (capacity: nat)
      ensures Valid() && this.capacity == capacity && data == map[]
    {
      this.capacity, data := capacity, map[];
    }

    method Put(fv: Vector)
      requires Valid()
      modifies this
      ensures Valid()
      ensures data == CachePut(old(data), capacity, fv)
      ensures forall symbol :: symbol != fv.symbol ==> (symbol in data <==> symbol in old(data))
      ensures forall symbol :: symbol != fv.symbol && symbol in data ==> data[symbol] == old(data)[symbol]
      ensures fv.symbol in data
      ensures forall x :: x in data[fv.symbol] ==>
        x.fv == fv || (x in EntriesOf(old(data), fv.symbol) && x.fv.ts != fv.ts)
      ensures forall x :: x == Entry(fv.ts, fv) || (x in EntriesOf(old(data), fv.symbol) && x.fv.ts != fv.ts) ==>
        x in data[fv.symbol] || (|data[fv.symbol]| == capacity && forall y :: y in data[fv.symbol] ==> x.ts < y.ts)
    {
      PutLeaves(EntriesOf(data, fv.symbol), fv, capacity);
      var kept := PutEntry(EntriesOf(data, fv.symbol), EntryOf(fv), capacity);
      data := data[fv.symbol := kept];
    }

    method GetLatest(symbol: string) returns (latest: Option<Vector>)
      requires Valid()
      ensures latest == if EntriesOf(data, symbol) == [] then None else Some(Last(EntriesOf(data, symbol)).value.fv)
      ensures latest.Some? ==> forall x :: x in EntriesOf(data, symbol) ==> x.fv.ts <= latest.value.ts
    {
      var od := EntriesOf(data, symbol);
      latest := if od == [] then None else Some(od[|od| - 1].fv);
    }

    method GetAt(symbol: string, target: int, tolerance: Option<int>) returns (found: Option<Vector>)
      requires Valid()
      ensures var e := AsOf(EntriesOf(data, symbol), target);
              found == if e.Some? && (tolerance.None? || target - e.value.ts <= tolerance.value) then Some(e.value.fv)
                else None
      ensures found.Some? ==>
        && found.value.symbol == symbol && found.value.ts <= target
        && (tolerance.Some? ==> target - found.value.ts <= tolerance.value)
        && forall x :: x in EntriesOf(data, symbol) && x.fv.ts <= target ==> x.fv.ts <= found.value.ts
      ensures found.None? ==> forall x :: x in EntriesOf(data, symbol) && x.fv.ts <= target ==>
        tolerance.Some? && tolerance.value < target - x.fv.ts
    {
      var od := EntriesOf(data, symbol);
      AsOfIsGreatest(od, target);
      var times := seq(|od|, i requires 0 <= i < |od| => od[i].ts);
      var index := BisectRight(times, target);
      AsOfBisected(od, times, target, index);
      if index == 0 {
        return None;
      }
      if tolerance.Some? && target - od[index - 1].ts > tolerance.value {
        return None;
      }
      found := Some(od[index - 1].fv);
    }
  }

  lemma {:induction false} AsOfBisected(entries: seq<Entry>, times: seq<int>, target: int, index: nat)
    requires |times| == |entries| && forall i :: 0 <= i < |times| ==> times[i] == entries[i].ts
    requires index <= |times|
    requires forall i :: 0 <= i < index ==> times[i] <= target
    requires forall i :: index <= i < |times| ==> target < times[i]
    ensures AsOf(entries, target) == if index == 0 then None else Some(entries[index - 1])
  {
    if index < |entries| {
      AsOfBisected(entries[..|entries| - 1], times[..|times| - 1], target, index);
    }
  }
}
