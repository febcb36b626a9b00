/** A sorted list that keeps one element per rank, bounded to its greatest elements or not. */
module TopK {
  import opened Sequences
  import opened Sorting

  predicate Ties<T>(x: T, y: T, le: (T, T) -> bool) {
    le(x, y) && le(y, x)
  }

  ghost predicate Strict<T>(s: seq<T>, le: (T, T) -> bool) {
    forall i, j :: 0 <= i < j < |s| ==> le(s[i], s[j]) && !le(s[j], s[i])
  }

  /** Take the place of the element of the same rank, or a new one. */
  function Put<T>(s: seq<T>, x: T, le: (T, T) -> bool): (r: seq<T>)
    ensures |s| <= |r| <= |s| + 1
  {
    if s == [] then [x]
    else if Ties(s[0], x, le) then [x] + s[1..]
    else if le(x, s[0]) then [x] + s
    else [s[0]] + Put(s[1..], x, le)
  }

  function PutEach<T>(xs: seq<T>, le: (T, T) -> bool): seq<T> {
    if xs == [] then [] else Put(PutEach(xs[..|xs| - 1], le), xs[|xs| - 1], le)
  }

  /** The same, never keeping more than the `k` greatest. */
  function KeepEach<T>(xs: seq<T>, k: nat, le: (T, T) -> bool): seq<T> {
    if xs == [] then [] else LastN(Put(KeepEach(xs[..|xs| - 1], k, le), xs[|xs| - 1], le), k)
  }

  /** Where `x` is not above the first element it is not above any, and ties with no later one. */
  lemma BelowAll<T(!new)>(s: seq<T>, x: T, le: (T, T) -> bool)
    requires TotalPreorder(le) && Strict(s, le) && s != [] && le(x, s[0])
    ensures forall k :: 0 <= k < |s| ==> le(x, s[k])
    ensures forall k :: 0 < k < |s| ==> !le(s[k], x)
  {
    forall k | 0 < k < |s| ensures le(x, s[k]) && !le(s[k], x) {
      assert Transitive(le, x, s[0], s[k]) && Transitive(le, s[k], x, s[0]);
    }
  }

  lemma {:induction false} PutMembers<T(!new)>(s: seq<T>, x: T, le: (T, T) -> bool)
    requires TotalPreorder(le) && Strict(s, le)
    ensures forall y :: y in Put(s, x, le) <==> y == x || (y in s && !Ties(y, x, le))
  {
    if s != [] {
      assert s == [s[0]] + s[1..];
      if le(x, s[0]) {
        BelowAll(s, x, le);
      } else {
        PutMembers(s[1..], x, le);
      }
    }
  }

  lemma {:induction false} PutStrict<T(!new)>(s: seq<T>, x: T, le: (T, T) -> bool)
    requires TotalPreorder(le) && Strict(s, le)
    ensures Strict(Put(s, x, le), le)
  {
    if s != [] {
      if le(x, s[0]) {
        BelowAll(s, x, le);
      } else {
        PutStrict(s[1..], x, le);
        StrictFront(s, x, le);
        ConsStrict(s[0], Put(s[1..], x, le), le);
      }
    }
  }

  lemma ConsStrict<T>(x: T, s: seq<T>, le: (T, T) -> bool)
    requires Strict(s, le) && Leads(x, s, le)
    ensures Strict([x] + s, le)
  {
  }

  ghost predicate Leads<T>(x: T, s: seq<T>, le: (T, T) -> bool) {
    forall j :: 0 <= j < |s| ==> le(x, s[j]) && !le(s[j], x)
  }

  lemma StrictFront<T(!new)>(s: seq<T>, x: T, le: (T, T) -> bool)
    requires TotalPreorder(le) && Strict(s, le) && s != [] && !le(x, s[0])
    ensures Leads(s[0], Put(s[1..], x, le), le)
  {
    PutMembers(s[1..], x, le);
    assert Total(le, x, s[0]);
    var rest := Put(s[1..], x, le);
    forall j | 0 <= j < |rest| ensures le(s[0], rest[j]) && !le(rest[j], s[0]) {
      assert rest[j] in rest;
    }
  }

  lemma {:induction false} PutEachStrict<T(!new)>(xs: seq<T>, le: (T, T) -> bool)
    requires TotalPreorder(le)
    ensures Strict(PutEach(xs, le), le)
  {
    if xs != [] {
      PutEachStrict(xs[..|xs| - 1], le);
      PutStrict(PutEach(xs[..|xs| - 1], le), xs[|xs| - 1], le);
    }
  }

  /** Nothing of the same rank was put after the last `y`. */
  predicate PutLastOfRank<T(==)>(xs: seq<T>, y: T, le: (T, T) -> bool) {
    xs != [] &&
      var x := xs[|xs| - 1];
      x == y || (!Ties(y, x, le) && PutLastOfRank(xs[..|xs| - 1], y, le))
  }

  /** What is in the unbounded list: of each rank, what was put last. */
  lemma {:induction false} PutEachMembers<T(!new)>(xs: seq<T>, le: (T, T) -> bool, y: T)
    requires TotalPreorder(le)
    ensures y in PutEach(xs, le) <==> PutLastOfRank(xs, y, le)
    ensures PutLastOfRank(xs, y, le) ==> y in xs
  {
    if xs != [] {
      var front := xs[..|xs| - 1];
      PutEachMembers(front, le, y);
      PutEachStrict(front, le);
      PutMembers(PutEach(front, le), xs[|xs| - 1], le);
    }
  }

  /** Every rank that was put is held by something. */
  lemma {:induction false} RankHeld<T(!new)>(xs: seq<T>, le: (T, T) -> bool, x: T) returns (y: T)
    requires TotalPreorder(le) && x in xs
    ensures y in PutEach(xs, le) && Ties(y, x, le)
  {
    var front, last := xs[..|xs| - 1], xs[|xs| - 1];
    PutEachStrict(front, le);
    PutMembers(PutEach(front, le), last, le);
    y := last;
    assert Total(le, last, last);
    if x != last {
      var held := RankHeld(front, le, x);
      if !Ties(held, last, le) {
        y := held;
      } else {
        assert Transitive(le, last, held, x) && Transitive(le, x, held, last);
      }
    }
  }

  /** Below the kept elements nothing that is put matters. */
  lemma {:induction false} PutBelow<T(!new)>(a: seq<T>, t: seq<T>, x: T, le: (T, T) -> bool)
    requires TotalPreorder(le) && Strict(a + t, le) && (t == [] || (le(x, t[0]) && !le(t[0], x)))
    ensures Put(a + t, x, le) == Put(a, x, le) + t
  {
    if a == [] {
      assert a + t == t;
    } else {
      ConsAppend(a, t);
      if !le(x, a[0]) {
        PutBelow(a[1..], t, x, le);
        AppendAssociative([a[0]], Put(a[1..], x, le), t);
      } else {
        AppendAssociative([x], if Ties(a[0], x, le) then a[1..] else a, t);
      }
    }
  }

  lemma NotBelowFront<T(!new)>(a: seq<T>, t: seq<T>, x: T, le: (T, T) -> bool)
    requires TotalPreorder(le) && Strict(a + t, le) && a != [] && t != [] && le(t[0], x)
    ensures !le(x, a[0]) && Strict(a[1..] + t, le)
  {
    ConsAppend(a, t);
    assert (a + t)[0] == a[0] && (a + t)[|a|] == t[0];
    assert Transitive(le, t[0], x, a[0]);
  }

  /** Among the kept elements nothing below them matters. */
  lemma {:induction false} PutAbove<T(!new)>(a: seq<T>, t: seq<T>, x: T, le: (T, T) -> bool)
    requires TotalPreorder(le) && Strict(a + t, le) && t != [] && le(t[0], x)
    ensures Put(a + t, x, le) == a + Put(t, x, le)
  {
    if a == [] {
      assert a + t == t && a + Put(t, x, le) == Put(t, x, le);
    } else {
      ConsAppend(a, t);
      ConsAppend(a, Put(t, x, le));
      NotBelowFront(a, t, x, le);
      PutAbove(a[1..], t, x, le);
    }
  }

  lemma LastNTail<T>(a: seq<T>, t: seq<T>, k: nat)
    requires k <= |t|
    ensures LastN(a + t, k) == LastN(t, k)
  {
  }

  /** Forgetting all but the `k` greatest before a put is forgetting them after it. */
  lemma PutKept<T(!new)>(s: seq<T>, x: T, k: nat, le: (T, T) -> bool)
    requires TotalPreorder(le) && Strict(s, le)
    ensures LastN(Put(LastN(s, k), x, le), k) == LastN(Put(s, x, le), k)
  {
    if k < |s| {
      var a, t := s[..|s| - k], s[|s| - k..];
      assert s == a + t && LastN(s, k) == t;
      if t == [] || !le(t[0], x) {
        PutKeptBelow(a, t, x, le);
      } else {
        PutAbove(a, t, x, le);
        LastNTail(a, Put(t, x, le), k);
      }
    }
  }

  lemma PutKeptBelow<T(!new)>(a: seq<T>, t: seq<T>, x: T, le: (T, T) -> bool)
    requires TotalPreorder(le) && Strict(a + t, le) && (t == [] || !le(t[0], x))
    ensures LastN(Put(t, x, le), |t|) == LastN(Put(a + t, x, le), |t|) == t
  {
    assert t != [] ==> Total(le, x, t[0]);
    PutBelow(a, t, x, le);
    LastNTail(Put(a, x, le), t, |t|);
    assert Put(t, x, le) == [x] + t;
    LastNTail([x], t, |t|);
  }

  /** The bounded list is the end of the unbounded one, whatever was put in whatever order. */
  lemma {:induction false} KeptIsTopK<T(!new)>(xs: seq<T>, k: nat, le: (T, T) -> bool)
    requires TotalPreorder(le)
    ensures KeepEach(xs, k, le) == LastN(PutEach(xs, le), k)
  {
    if xs != [] {
      KeptIsTopK(xs[..|xs| - 1], k, le);
      PutEachStrict(xs[..|xs| - 1], le);
      PutKept(PutEach(xs[..|xs| - 1], le), xs[|xs| - 1], k, le);
    }
  }

  /** Strictly sorted lists of the same elements are equal. */
  lemma {:induction false} StrictUnique<T>(a: seq<T>, b: seq<T>, le: (T, T) -> bool)
    requires Strict(a, le) && Strict(b, le)
    requires forall x :: x in a <==> x in b
    ensures a == b
  {
    assert b != [] ==> b[0] in a;
    if a != [] {
      assert a[0] in b;
      var i :| 0 <= i < |b| && b[i] == a[0];
      assert b[0] in a;
      var j :| 0 <= j < |a| && a[j] == b[0];
      assert a[0] == b[0];
      forall x ensures x in a[1..] <==> x in b[1..] {
        assert x in a <==> x == a[0] || x in a[1..];
        assert x in b <==> x == b[0] || x in b[1..];
      }
      StrictUnique(a[1..], b[1..], le);
    }
  }

  function NotTied<T>(x: T, le: (T, T) -> bool): T -> bool {
    (y: T) => !Ties(y, x, le)
  }

  lemma {:induction false} PutMultiset<T(!new)>(s: seq<T>, x: T, le: (T, T) -> bool)
    requires TotalPreorder(le) && Strict(s, le)
    ensures multiset(Put(s, x, le)) == multiset(Filter(s, NotTied(x, le))) + multiset{x}
  {
    if s != [] {
      assert s == [s[0]] + s[1..];
      if le(x, s[0]) {
        BelowAll(s, x, le);
        FilterAll(s[1..], NotTied(x, le));
      } else {
        PutMultiset(s[1..], x, le);
      }
    }
  }

  /** In sorted order, replacing the row of a rank or adding one is a put. */
  lemma SortPut<T(!new)>(rows: seq<T>, x: T, le: (T, T) -> bool)
    requires TotalPreorder(le) && Strict(Sort(rows, le), le)
    ensures Sort(Filter(rows, NotTied(x, le)) + [x], le) == Put(Sort(rows, le), x, le)
  {
    var put, all := Put(Sort(rows, le), x, le), Filter(rows, NotTied(x, le)) + [x];
    PutStrict(Sort(rows, le), x, le);
    PutMultiset(Sort(rows, le), x, le);
    SortFilter(rows, le, NotTied(x, le));
    SortSorted(all, le);
    assert multiset(all) == multiset(Filter(rows, NotTied(x, le))) + multiset{x};
    SortedUnique(put, Sort(all, le), le);
  }

  /** Dropping the first elements by a test that only they fail. */
  lemma {:induction false} FilterTail<T>(s: seq<T>, p: T -> bool, n: nat)
    requires n <= |s|
    requires forall i :: 0 <= i < n ==> !p(s[i])
    requires forall i :: n <= i < |s| ==> p(s[i])
    ensures Filter(s, p) == s[n..]
  {
    if n == 0 {
      FilterAll(s, p);
    } else {
      FilterTail(s[1..], p, n - 1);
    }
  }

  /** What passes a test last in the end of a list passes it last in the whole list. */
  lemma LastPassing<T>(s: seq<T>, k: nat, p: T -> bool)
    ensures Last(Filter(LastN(s, k), p)).Some? ==> Last(Filter(LastN(s, k), p)) == Last(Filter(s, p))
  {
    if k < |s| {
      FilterAppend(s[..|s| - k], s[|s| - k..], p);
      assert s == s[..|s| - k] + s[|s| - k..];
    }
  }
}
