/** Options, bounded queues and subsequences: the vocabulary shared by every model. */
module Sequences {

  datatype Option<+T> = None | Some(value: T)

  type pos = n: nat | 0 < n witness 1

  function Last<T>(s: seq<T>): Option<T> {
    if s == [] then None else Some(s[|s| - 1])
  }

  lemma FrontLast<T>(s: seq<T>)
    requires s != []
    ensures s == s[..|s| - 1] + [s[|s| - 1]]
  {
  }

  lemma ConsAppend<T>(a: seq<T>, b: seq<T>)
    requires a != []
    ensures (a + b)[1..] == a[1..] + b && (a + b)[0] == a[0] && a + b == [a[0]] + (a[1..] + b)
  {
  }

  lemma AppendAssociative<T>(a: seq<T>, b: seq<T>, c: seq<T>)
    ensures (a + b) + c == a + (b + c)
  {
  }

  lemma TakeNext<T>(s: seq<T>, i: nat)
    requires i < |s|
    ensures s[..i + 1][..i] == s[..i] && s[..i + 1] == s[..i] + [s[i]]
  {
  }

  lemma SliceNext<T>(s: seq<T>, i: nat, j: nat)
    requires i <= j < |s|
    ensures s[i..j + 1] == s[i..j] + [s[j]]
  {
  }

  lemma SliceTail<T>(s: seq<T>, i: nat, j: nat)
    requires 0 < i <= j <= |s|
    ensures s[1..][i - 1..j - 1] == s[i..j]
  {
  }

  lemma TakeCons<T>(s: seq<T>, j: nat)
    requires 0 < j <= |s|
    ensures s[0..j] == [s[0]] + s[1..][0..j - 1]
  {
  }

  lemma TakeAll<T>(s: seq<T>)
    ensures s[..|s|] == s && s[..0] == []
  {
  }

  /** What a `deque(maxlen=n)` holds after the elements of `s` were appended in order. */
  function LastN<T>(s: seq<T>, n: nat): (r: seq<T>)
    ensures |r| <= n
  {
    if |s| <= n then s else s[|s| - n..]
  }

  lemma LastNAppend<T>(s: seq<T>, t: seq<T>, n: nat)
    ensures LastN(LastN(s, n) + t, n) == LastN(s + t, n)
  {
    if |s| > n {
      assert s + t == s[..|s| - n] + (LastN(s, n) + t);
    }
  }

  lemma LastNLastN<T>(s: seq<T>, n: nat, m: nat)
    requires m <= n
    ensures LastN(LastN(s, n), m) == LastN(s, m)
  {
  }

  /** The elements of a sequence of options that are present, in order. */
  function Present<T>(s: seq<Option<T>>): (r: seq<T>)
    ensures |r| <= |s|
  {
    if s == [] then []
    else if s[0].Some? then [s[0].value] + Present(s[1..])
    else Present(s[1..])
  }

  lemma {:induction false} PresentAppend<T>(a: seq<Option<T>>, b: seq<Option<T>>)
    ensures Present(a + b) == Present(a) + Present(b)
  {
    if a == [] {
      assert a + b == b;
    } else {
      assert (a + b)[1..] == a[1..] + b;
      PresentAppend(a[1..], b);
    }
  }

  /** The elements that satisfy `p`, in order. */
  function Filter<T>(s: seq<T>, p: T -> bool): (r: seq<T>)
    ensures |r| <= |s|
  {
    if s == [] then []
    else if p(s[0]) then [s[0]] + Filter(s[1..], p)
    else Filter(s[1..], p)
  }

  lemma {:induction false} FilterMembers<T>(s: seq<T>, p: T -> bool, x: T)
    ensures x in Filter(s, p) <==> x in s && p(x)
  {
    if s != [] {
      FilterMembers(s[1..], p, x);
    }
  }

  lemma FilterKeeps<T(!new)>(s: seq<T>, p: T -> bool)
    ensures forall x :: x in Filter(s, p) <==> x in s && p(x)
  {
    forall x ensures x in Filter(s, p) <==> x in s && p(x) {
      FilterMembers(s, p, x);
    }
  }

  lemma {:induction false} FilterAppend<T>(a: seq<T>, b: seq<T>, p: T -> bool)
    ensures Filter(a + b, p) == Filter(a, p) + Filter(b, p)
  {
    if a == [] {
      assert a + b == b;
    } else {
      assert (a + b)[1..] == a[1..] + b;
      FilterAppend(a[1..], b, p);
    }
  }

  lemma FilterOne<T>(x: T, p: T -> bool)
    ensures Filter([x], p) == if p(x) then [x] else []
  {
  }

  lemma {:induction false} FilterAll<T>(s: seq<T>, p: T -> bool)
    requires forall i :: 0 <= i < |s| ==> p(s[i])
    ensures Filter(s, p) == s
  {
    if s != [] {
      FilterAll(s[1..], p);
    }
  }

  lemma {:induction false} FilterNone<T>(s: seq<T>, p: T -> bool)
    requires forall i :: 0 <= i < |s| ==> !p(s[i])
    ensures Filter(s, p) == []
  {
    if s != [] {
      FilterNone(s[1..], p);
    }
  }

  lemma {:induction false} FilterCount<T>(s: seq<T>, p: T -> bool, x: T)
    ensures multiset(Filter(s, p))[x] == if p(x) then multiset(s)[x] else 0
  {
    if s != [] {
      assert s == [s[0]] + s[1..];
      FilterCount(s[1..], p, x);
    }
  }

  lemma FilterInserted<T>(a: seq<T>, x: T, b: seq<T>, p: T -> bool)
    requires !p(x)
    ensures Filter(a + [x] + b, p) == Filter(a + b, p)
  {
    FilterAppend(a + [x], b, p);
    FilterAppend(a, [x], p);
    FilterAppend(a, b, p);
  }

  lemma {:induction false} FilterTwice<T>(s: seq<T>, p: T -> bool, q: T -> bool, both: T -> bool)
    requires forall i :: 0 <= i < |s| ==> (both(s[i]) <==> p(s[i]) && q(s[i]))
    ensures Filter(Filter(s, p), q) == Filter(s, both)
  {
    if s != [] {
      FilterTwice(s[1..], p, q, both);
    }
  }

  lemma SwapFilters<T>(s: seq<T>, p: T -> bool, q: T -> bool)
    ensures Filter(Filter(s, p), q) == Filter(Filter(s, q), p)
  {
    var both := (x: T) => p(x) && q(x);
    FilterTwice(s, p, q, both);
    FilterTwice(s, q, p, both);
  }

  lemma {:induction false} FilterSameBy<T>(s: seq<T>, p: T -> bool, q: T -> bool)
    requires forall i :: 0 <= i < |s| ==> (p(s[i]) <==> q(s[i]))
    ensures Filter(s, p) == Filter(s, q)
  {
    if s != [] {
      FilterSameBy(s[1..], p, q);
    }
  }

  /** The state after the steps `xs`, from the first to the last. */
  function Fold<S, X>(step: (S, X) -> S, start: S, xs: seq<X>): S {
    if xs == [] then start else step(Fold(step, start, xs[..|xs| - 1]), xs[|xs| - 1])
  }

  /** What each step answers in the state it finds. */
  function Trace<S, X, Y>(step: (S, X) -> S, answer: (S, X) -> Y, start: S, xs: seq<X>): seq<Y> {
    if xs == [] then []
    else
      var front, last := xs[..|xs| - 1], xs[|xs| - 1];
      Trace(step, answer, start, front) + [answer(Fold(step, start, front), last)]
  }

  lemma {:induction false} FoldAppend<S, X>(step: (S, X) -> S, start: S, xs: seq<X>, ys: seq<X>)
    ensures Fold(step, start, xs + ys) == Fold(step, Fold(step, start, xs), ys)
  {
    if ys == [] {
      assert xs + ys == xs;
    } else {
      assert (xs + ys)[..|xs + ys| - 1] == xs + ys[..|ys| - 1];
      FoldAppend(step, start, xs, ys[..|ys| - 1]);
    }
  }

  lemma {:induction false} TraceAppend<S, X, Y>(step: (S, X) -> S, answer: (S, X) -> Y, start: S, xs: seq<X>,
                                                ys: seq<X>)
    ensures Trace(step, answer, start, xs + ys)
         == Trace(step, answer, start, xs) + Trace(step, answer, Fold(step, start, xs), ys)
  {
    if ys == [] {
      assert xs + ys == xs;
    } else {
      var front := ys[..|ys| - 1];
      assert (xs + ys)[..|xs + ys| - 1] == xs + front;
      FoldAppend(step, start, xs, front);
      TraceAppend(step, answer, start, xs, front);
    }
  }

  /** What is answered first does not depend on what comes later. */
  lemma {:induction false} TracePrefix<S, X, Y>(step: (S, X) -> S, answer: (S, X) -> Y, start: S, xs: seq<X>, k: nat)
    requires k < |xs|
    ensures |Trace(step, answer, start, xs)| == |xs| && |Trace(step, answer, start, xs[..k + 1])| == k + 1
    ensures Trace(step, answer, start, xs)[k] == Trace(step, answer, start, xs[..k + 1])[k]
  {
    TraceLength(step, answer, start, xs);
    TraceLength(step, answer, start, xs[..k + 1]);
    var n := |xs| - 1;
    if k < n {
      TracePrefix(step, answer, start, xs[..n], k);
      assert xs[..n][..k + 1] == xs[..k + 1];
    } else {
      assert xs[..k + 1] == xs;
    }
  }

  lemma {:induction false} TraceLength<S, X, Y>(step: (S, X) -> S, answer: (S, X) -> Y, start: S, xs: seq<X>)
    ensures |Trace(step, answer, start, xs)| == |xs|
  {
    if xs != [] {
      TraceLength(step, answer, start, xs[..|xs| - 1]);
    }
  }
}
