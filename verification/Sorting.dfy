/** A stable sort (Python's `sorted`) and what makes its result unique. */
module Sorting {
  import opened Sequences

  predicate Total<T>(le: (T, T) -> bool, x: T, y: T) {
    le(x, y) || le(y, x)
  }

  predicate Transitive<T>(le: (T, T) -> bool, x: T, y: T, z: T) {
    le(x, y) && le(y, z) ==> le(x, z)
  }

  ghost predicate TotalPreorder<T(!new)>(le: (T, T) -> bool) {
    && (forall x, y :: Total(le, x, y))
    && (forall x, y, z :: Transitive(le, x, y, z))
  }

  predicate SortedBy<T>(s: seq<T>, le: (T, T) -> bool) {
    forall i, j :: 0 <= i < j < |s| ==> le(s[i], s[j])
  }

  /** No two different positions of `s` tie under `le`. */
  ghost predicate TieFree<T>(s: seq<T>, le: (T, T) -> bool) {
    forall i, j :: 0 <= i < |s| && 0 <= j < |s| && le(s[i], s[j]) && le(s[j], s[i]) ==> s[i] == s[j]
  }

  /** `x` goes before the first element it is not above, so among ties it comes first. */
  function Insert<T>(x: T, s: seq<T>, le: (T, T) -> bool): (r: seq<T>)
    ensures multiset(r) == multiset([x]) + multiset(s)
    ensures |r| == |s| + 1
  {
    if s == [] then [x]
    else if le(x, s[0]) then
      [x] + s
    else
      var r := [s[0]] + Insert(x, s[1..], le);
      assert s == [s[0]] + s[1..];
      r
  }

  function Sort<T>(s: seq<T>, le: (T, T) -> bool): (r: seq<T>)
    ensures multiset(r) == multiset(s)
    ensures |r| == |s|
  {
    if s == [] then []
    else
      assert s == [s[0]] + s[1..];
      Insert(s[0], Sort(s[1..], le), le)
  }

  lemma {:induction false} InsertSorted<T(!new)>(x: T, s: seq<T>, le: (T, T) -> bool)
    requires TotalPreorder(le) && SortedBy(s, le)
    ensures SortedBy(Insert(x, s, le), le)
  {
    if s != [] && le(x, s[0]) {
      forall k | 0 <= k < |s| ensures le(x, s[k]) {
        assert Transitive(le, x, s[0], s[k]);
      }
    } else if s != [] {
      InsertSorted(x, s[1..], le);
      assert Total(le, x, s[0]);
      var r := Insert(x, s[1..], le);
      forall k | 0 <= k < |r| ensures le(s[0], r[k]) {
        assert r[k] in multiset(r);
        if r[k] != x {
          assert r[k] in multiset(s[1..]);
        }
      }
    }
  }

  lemma {:induction false} SortSorted<T(!new)>(s: seq<T>, le: (T, T) -> bool)
    requires TotalPreorder(le)
    ensures SortedBy(Sort(s, le), le)
  {
    if s != [] {
      SortSorted(s[1..], le);
      InsertSorted(s[0], Sort(s[1..], le), le);
    }
  }

  /** Sorting sorted input changes nothing, ties included. */
  lemma {:induction false} SortIdentity<T>(s: seq<T>, le: (T, T) -> bool)
    requires SortedBy(s, le)
    ensures Sort(s, le) == s
  {
    if s != [] {
      SortIdentity(s[1..], le);
    }
  }

  /** Two sorted arrangements of the same elements are equal when nothing ties. */
  lemma {:induction false} SortedUnique<T>(a: seq<T>, b: seq<T>, le: (T, T) -> bool)
    requires SortedBy(a, le) && SortedBy(b, le) && TieFree(a, le)
    requires multiset(a) == multiset(b)
    ensures a == b
  {
    SameLength(a, b);
    if a != [] {
      SameLeast(a, b, le);
      HeadRest(a);
      HeadRest(b);
      SortedUnique(a[1..], b[1..], le);
    }
  }

  lemma SameLength<T>(a: seq<T>, b: seq<T>)
    requires multiset(a) == multiset(b)
    ensures |a| == |b|
  {
    assert |multiset(a)| == |a| && |multiset(b)| == |b|;
  }

  lemma HeadRest<T>(s: seq<T>)
    requires s != []
    ensures s == [s[0]] + s[1..] && multiset(s[1..]) == multiset(s) - multiset{s[0]}
  {
    assert s == [s[0]] + s[1..];
  }

  lemma SameMembers<T(!new)>(a: seq<T>, b: seq<T>)
    requires multiset(a) == multiset(b)
    ensures |a| == |b| && forall x :: x in a <==> x in b
  {
    assert |multiset(a)| == |a| && |multiset(b)| == |b|;
    forall x ensures x in a <==> x in b {
      assert x in multiset(a) <==> x in multiset(b);
    }
  }

  lemma SortMembers<T(!new)>(s: seq<T>, le: (T, T) -> bool)
    ensures forall x :: x in Sort(s, le) <==> x in s
  {
    SameMembers(Sort(s, le), s);
  }

  /** What comes last in sorted order is above everything. */
  lemma SortGreatest<T(!new)>(s: seq<T>, le: (T, T) -> bool)
    requires TotalPreorder(le) && s != []
    ensures Sort(s, le)[|s| - 1] in s
    ensures forall x :: x in s ==> le(x, Sort(s, le)[|s| - 1])
  {
    SortSorted(s, le);
    SortMembers(s, le);
    assert Sort(s, le)[|s| - 1] in Sort(s, le);
    forall x | x in s ensures le(x, Sort(s, le)[|s| - 1]) {
      LastGreatest(Sort(s, le), le, x);
    }
  }

  lemma LastGreatest<T(!new)>(sorted: seq<T>, le: (T, T) -> bool, x: T)
    requires TotalPreorder(le) && SortedBy(sorted, le) && x in sorted
    ensures le(x, sorted[|sorted| - 1])
  {
    var k :| 0 <= k < |sorted| && sorted[k] == x;
    assert k < |sorted| - 1 || Total(le, x, x);
  }

  lemma SameLeast<T>(a: seq<T>, b: seq<T>, le: (T, T) -> bool)
    requires SortedBy(a, le) && SortedBy(b, le) && TieFree(a, le)
    requires multiset(a) == multiset(b) && a != [] && b != []
    ensures a[0] == b[0]
  {
    assert b[0] in multiset(a) && a[0] in multiset(b);
    var i :| 0 <= i < |a| && a[i] == b[0];
    var j :| 0 <= j < |b| && b[j] == a[0];
    assert i == 0 || le(a[0], a[i]);
    assert j == 0 || le(b[0], b[j]);
  }

  lemma TieFreePermutation<T>(a: seq<T>, b: seq<T>, le: (T, T) -> bool)
    requires TieFree(a, le) && multiset(a) == multiset(b)
    ensures TieFree(b, le)
  {
    forall i, j | 0 <= i < |b| && 0 <= j < |b| && le(b[i], b[j]) && le(b[j], b[i]) ensures b[i] == b[j] {
      assert b[i] in multiset(a) && b[j] in multiset(a);
    }
  }

  lemma SortPermutation<T(!new)>(a: seq<T>, b: seq<T>, le: (T, T) -> bool)
    requires TotalPreorder(le) && TieFree(a, le)
    requires multiset(a) == multiset(b)
    ensures Sort(a, le) == Sort(b, le)
  {
    SortSorted(a, le);
    SortSorted(b, le);
    TieFreePermutation(a, Sort(a, le), le);
    SortedUnique(Sort(a, le), Sort(b, le), le);
  }

  /** Sorting commutes with dropping elements: `sorted` is stable. */
  lemma {:induction false} InsertFilter<T>(x: T, s: seq<T>, le: (T, T) -> bool, p: T -> bool)
    requires AboveFrom(x, s, le)
    ensures Filter(Insert(x, s, le), p) == if p(x) then Insert(x, Filter(s, p), le) else Filter(s, p)
  {
    if s == [] {
    } else if le(x, s[0]) {
      InsertFront(x, s, le, p);
    } else {
      InsertFilter(x, s[1..], le, p);
      var r := Insert(x, s[1..], le);
      assert Insert(x, s, le) == [s[0]] + r && ([s[0]] + r)[1..] == r;
    }
  }

  /** Once an element of `s` is above `x`, so are all later ones. */
  predicate AboveFrom<T>(x: T, s: seq<T>, le: (T, T) -> bool) {
    forall j, k :: 0 <= j < k < |s| && le(x, s[j]) ==> le(x, s[k])
  }

  lemma InsertFront<T>(x: T, s: seq<T>, le: (T, T) -> bool, p: T -> bool)
    requires AboveFrom(x, s, le) && s != [] && le(x, s[0])
    ensures Filter(Insert(x, s, le), p) == if p(x) then Insert(x, Filter(s, p), le) else Filter(s, p)
  {
    assert ([x] + s)[1..] == s;
    var f := Filter(s, p);
    if f != [] {
      FilterMembers(s, p, f[0]);
      var k :| 0 <= k < |s| && s[k] == f[0];
      assert k == 0 || le(x, s[k]);
    }
  }

  lemma SortedAbove<T(!new)>(x: T, s: seq<T>, le: (T, T) -> bool)
    requires TotalPreorder(le) && SortedBy(s, le)
    ensures AboveFrom(x, s, le)
  {
    forall j, k | 0 <= j < k < |s| && le(x, s[j]) ensures le(x, s[k]) {
      assert Transitive(le, x, s[j], s[k]);
    }
  }

  lemma {:induction false} SortFilter<T(!new)>(s: seq<T>, le: (T, T) -> bool, p: T -> bool)
    requires TotalPreorder(le)
    ensures Filter(Sort(s, le), p) == Sort(Filter(s, p), le)
  {
    if s != [] {
      SortFilter(s[1..], le, p);
      SortSorted(s[1..], le);
      SortedAbove(s[0], Sort(s[1..], le), le);
      InsertFilter(s[0], Sort(s[1..], le), le, p);
      assert Filter(s, p) == (if p(s[0]) then [s[0]] else []) + Filter(s[1..], p);
      if p(s[0]) {
        assert Filter(s, p)[1..] == Filter(s[1..], p);
      }
    }
  }

  ghost predicate Distinct<T>(s: seq<T>) {
    forall i, j :: 0 <= i < j < |s| ==> s[i] != s[j]
  }

  /** What ties with `x` keeps its order. */
  lemma SortStable<T(!new)>(s: seq<T>, le: (T, T) -> bool, x: T)
    requires TotalPreorder(le)
    ensures var tied := (y: T) => le(x, y) && le(y, x); Filter(Sort(s, le), tied) == Filter(s, tied)
  {
    var tied := (y: T) => le(x, y) && le(y, x);
    var own := Filter(s, tied);
    FilterKeeps(s, tied);
    forall i, j | 0 <= i < j < |own| ensures le(own[i], own[j]) {
      assert own[i] in own && own[j] in own;
      assert Transitive(le, own[i], x, own[j]);
    }
    SortIdentity(own, le);
    SortFilter(s, le, tied);
  }

  lemma {:induction false} DistinctCounts<T>(s: seq<T>)
    requires Distinct(s)
    ensures forall x :: multiset(s)[x] <= 1
  {
    if s != [] {
      var front, last := s[..|s| - 1], s[|s| - 1];
      FrontLast(s);
      DistinctCounts(front);
      assert last !in front;
    }
  }

  lemma TwiceIn<T>(s: seq<T>, i: nat, j: nat)
    requires i < j < |s|
    ensures s[i] == s[j] ==> 2 <= multiset(s)[s[i]]
  {
    assert s == s[..j] + s[j..] && s[..j][i] == s[i] && s[j..][0] == s[j];
    assert s[i] in multiset(s[..j]) && s[j] in multiset(s[j..]);
  }

  /** A rearrangement of distinct elements has none of them twice. */
  lemma DistinctPermutation<T>(a: seq<T>, b: seq<T>)
    requires Distinct(a) && multiset(a) == multiset(b)
    ensures Distinct(b)
  {
    DistinctCounts(a);
    forall i, j | 0 <= i < j < |b| ensures b[i] != b[j] {
      TwiceIn(b, i, j);
    }
  }

  predicate Ascending(keys: seq<int>) {
    forall i, j :: 0 <= i < j < |keys| ==> keys[i] <= keys[j]
  }

  /** `bisect_right`: how many elements of a sorted list are at most the target. */
  method BisectRight(keys: seq<int>, target: int) returns (index: nat)
    requires Ascending(keys)
    ensures index <= |keys|
    ensures forall i :: 0 <= i < index ==> keys[i] <= target
    ensures forall i :: index <= i < |keys| ==> target < keys[i]
  {
    var low, high := 0, |keys|;
    while low < high
      invariant 0 <= low <= high <= |keys|
      invariant forall i :: 0 <= i < low ==> keys[i] <= target
      invariant forall i :: high <= i < |keys| ==> target < keys[i]
    {
      var mid := (low + high) / 2;
      if target < keys[mid] {
        high := mid;
      } else {
        low := mid + 1;
      }
    }
    index := low;
  }
}
