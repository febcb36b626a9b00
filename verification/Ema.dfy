/** The exponential moving average as a function of the prices fed to it. */
module Ema {
  import opened Sequences
  import opened Nodes

  /** The EMA of window `w` after a scope saw `prices`; it starts at the w-th price. */
  function EmaOver(prices: seq<real>, w: pos): Option<real> {
    if |prices| < w then None
    else Some(EmaStep(w, EmaOver(prices[..|prices| - 1], w), prices[|prices| - 1]))
  }

  /** An EMA at `x` fed `prices` one after the other. */
  function Fed(w: pos, x: real, prices: seq<real>): real {
    if prices == [] then x
    else EmaStep(w, Some(Fed(w, x, prices[..|prices| - 1])), prices[|prices| - 1])
  }

  function Power(b: real, n: nat): real {
    if n == 0 then 1.0 else b * Power(b, n - 1)
  }

  /** `range` shrunk by a factor 1 - alpha at each of `n` steps. */
  function Shrunk(w: pos, n: nat, range: real): real {
    if n == 0 then range else (1.0 - Alpha(w)) * Shrunk(w, n - 1, range)
  }

  lemma {:induction false} ShrunkIsPower(w: pos, n: nat, range: real)
    ensures Shrunk(w, n, range) == Power(1.0 - Alpha(w), n) * range
  {
    if n != 0 {
      ShrunkIsPower(w, n - 1, range);
      Associate(1.0 - Alpha(w), Power(1.0 - Alpha(w), n - 1), range);
    }
  }

  lemma {:induction false} ShrunkNotNegative(w: pos, n: nat, range: real)
    requires 0.0 <= range
    ensures 0.0 <= Shrunk(w, n, range)
  {
    if n != 0 {
      ShrunkNotNegative(w, n - 1, range);
      AlphaRange(w);
      Monotone(1.0 - Alpha(w), 0.0, Shrunk(w, n - 1, range));
    }
  }

  ghost predicate Within(prices: seq<real>, low: real, high: real) {
    forall i :: 0 <= i < |prices| ==> low <= prices[i] <= high
  }

  lemma AlphaRange(w: pos)
    ensures 0.0 < Alpha(w) <= 1.0
    ensures 0.0 <= 1.0 - Alpha(w) < 1.0
  {
  }

  lemma {:induction false} PowerRange(b: real, n: nat)
    requires 0.0 <= b <= 1.0
    ensures 0.0 <= Power(b, n) <= 1.0
  {
    if n != 0 {
      PowerRange(b, n - 1);
      Scale(Power(b, n - 1), b);
    }
  }

  /** Multiplying a non-negative number by a factor in [0, 1] keeps it between zero and itself. */
  lemma Scale(x: real, b: real)
    requires 0.0 <= b <= 1.0 && 0.0 <= x
    ensures 0.0 <= b * x <= x
  {
  }

  /** A weighted mean stays where its parts are. */
  lemma Blend(a: real, x: real, y: real, low: real, high: real)
    requires 0.0 <= a <= 1.0 && low <= x <= high && low <= y <= high
    ensures low <= a * x + (1.0 - a) * y <= high
  {
    var b := 1.0 - a;
    Scale(x - low, a);
    Scale(y - low, b);
    Scale(high - x, a);
    Scale(high - y, b);
    assert a * x + b * y - low == a * (x - low) + b * (y - low);
    assert high - (a * x + b * y) == a * (high - x) + b * (high - y);
  }

  /** Two EMA states fed the same n prices differ by exactly (1 - 2 / (w + 1))^n times their first difference. */
  lemma {:induction false} FedDifference(w: pos, x: real, y: real, prices: seq<real>)
    ensures Fed(w, x, prices) - Fed(w, y, prices) == Power(1.0 - 2.0 / (w as real + 1.0), |prices|) * (x - y)
  {
    if prices != [] {
      var front := prices[..|prices| - 1];
      FedDifference(w, x, y, front);
      var b := 1.0 - Alpha(w);
      StepDifference(Alpha(w), prices[|prices| - 1], Fed(w, x, front), Fed(w, y, front));
      Associate(b, Power(b, |front|), x - y);
    }
  }

  lemma StepDifference(a: real, price: real, x: real, y: real)
    ensures (a * price + (1.0 - a) * x) - (a * price + (1.0 - a) * y) == (1.0 - a) * (x - y)
  {
  }

  lemma Associate(b: real, p: real, d: real)
    ensures b * (p * d) == (b * p) * d
  {
  }

  lemma PowerNext(b: real, n: nat)
    ensures Power(b, 0) == 1.0 && Power(b, n + 1) == b * Power(b, n)
  {
  }

  function Times(x: real, y: real): real {
    x * y
  }

  function Scaled(c: real, s: seq<real>): (r: seq<real>)
    ensures |r| == |s|
  {
    if s == [] then [] else [Times(c, s[0])] + Scaled(c, s[1..])
  }

  lemma {:induction false} SumScaled(c: real, s: seq<real>)
    ensures Sum(Scaled(c, s)) == Times(c, Sum(s))
  {
    if s != [] {
      SumScaled(c, s[1..]);
      assert Scaled(c, s)[1..] == Scaled(c, s[1..]);
      Distribute(c, s[0], Sum(s[1..]));
    }
  }

  lemma {:induction false} ScaledIs(c: real, s: seq<real>, r: seq<real>)
    requires |r| == |s| && forall i :: 0 <= i < |s| ==> r[i] == Times(c, s[i])
    ensures r == Scaled(c, s)
  {
    if s != [] {
      ScaledIs(c, s[1..], r[1..]);
      assert r == [r[0]] + r[1..];
    } else {
      assert r == [];
    }
  }

  lemma Distribute(c: real, x: real, y: real)
    ensures c * (x + y) == c * x + c * y
  {
  }

  /** The prices after the w-th, weighted by age. */
  function Weighted(w: pos, prices: seq<real>): (r: seq<real>)
    requires w <= |prices|
    ensures |r| == |prices| - w
  {
    seq(|prices| - w, i requires 0 <= i < |prices| - w =>
      2.0 / (w as real + 1.0) * Power((w as real - 1.0) / (w as real + 1.0), |prices| - w - 1 - i) * prices[w + i])
  }

  lemma Shares(w: pos)
    ensures (w as real - 1.0) / (w as real + 1.0) == 1.0 - Alpha(w)
  {
  }

  lemma WeightedNext(w: pos, prices: seq<real>)
    requires w < |prices|
    ensures Weighted(w, prices)
         == Scaled((w as real - 1.0) / (w as real + 1.0), Weighted(w, prices[..|prices| - 1]))
            + [2.0 / (w as real + 1.0) * prices[|prices| - 1]]
  {
    var all, before := Weighted(w, prices), Weighted(w, prices[..|prices| - 1]);
    var r, older := (w as real - 1.0) / (w as real + 1.0), all[..|all| - 1];
    forall i | 0 <= i < |before| ensures older[i] == Times(r, before[i]) {
      WeightShrinks(w, prices, i);
    }
    ScaledIs(r, before, older);
    NewestWeight(w, prices);
    FrontLast(all);
  }

  lemma NewestWeight(w: pos, prices: seq<real>)
    requires w < |prices|
    ensures Weighted(w, prices)[|prices| - w - 1] == 2.0 / (w as real + 1.0) * prices[|prices| - 1]
  {
    PowerNext((w as real - 1.0) / (w as real + 1.0), 0);
    Unit(2.0 / (w as real + 1.0));
  }

  lemma WeightShrinks(w: pos, prices: seq<real>, i: nat)
    requires i < |prices| - w - 1
    ensures Weighted(w, prices)[i]
         == (w as real - 1.0) / (w as real + 1.0) * Weighted(w, prices[..|prices| - 1])[i]
  {
    var r, age := (w as real - 1.0) / (w as real + 1.0), |prices| - w - 2 - i;
    PowerNext(r, age);
    Pull(2.0 / (w as real + 1.0), r, Power(r, age), prices[w + i]);
  }

  lemma Unit(x: real)
    ensures x * 1.0 == x
  {
  }

  lemma Pull(a: real, r: real, p: real, x: real)
    ensures a * (r * p) * x == r * (a * p * x)
  {
  }

  /** The w-th price and the later ones, with the explicit weights 2 / (w + 1) * ((w - 1) / (w + 1))^age. */
  function ClosedEma(prices: seq<real>, w: pos): real
    requires w <= |prices|
  {
    Power((w as real - 1.0) / (w as real + 1.0), |prices| - w) * prices[w - 1] + Sum(Weighted(w, prices))
  }

  lemma {:induction false} EmaClosed(prices: seq<real>, w: pos)
    requires w <= |prices|
    ensures EmaOver(prices, w) == Some(ClosedEma(prices, w))
  {
    var front, last := prices[..|prices| - 1], prices[|prices| - 1];
    if w < |prices| {
      EmaClosed(front, w);
      ClosedStep(prices, w);
      assert EmaOver(prices, w) == Some(EmaStep(w, Some(ClosedEma(front, w)), last));
    } else {
      ClosedFirst(prices, w);
      assert EmaOver(prices, w) == Some(EmaStep(w, None, last));
    }
  }

  lemma ClosedStep(prices: seq<real>, w: pos)
    requires w < |prices|
    ensures ClosedEma(prices, w) == EmaStep(w, Some(ClosedEma(prices[..|prices| - 1], w)), prices[|prices| - 1])
  {
    ClosedNext(prices, w);
    StepShares(w, prices[|prices| - 1], ClosedEma(prices[..|prices| - 1], w));
  }

  lemma ClosedFirst(prices: seq<real>, w: pos)
    requires w == |prices|
    ensures ClosedEma(prices, w) == prices[w - 1]
  {
    assert Weighted(w, prices) == [];
    SumOne(0.0);
    SameTimes(Power((w as real - 1.0) / (w as real + 1.0), |prices| - w), 1.0, prices[w - 1]);
  }

  lemma StepShares(w: pos, price: real, previous: real)
    ensures EmaStep(w, Some(previous), price)
         == 2.0 / (w as real + 1.0) * price + (w as real - 1.0) / (w as real + 1.0) * previous
  {
    Shares(w);
    SameTimes((w as real - 1.0) / (w as real + 1.0), 1.0 - Alpha(w), previous);
  }

  lemma SameTimes(a: real, b: real, x: real)
    requires a == b
    ensures a * x == b * x
  {
  }

  lemma ClosedNext(prices: seq<real>, w: pos)
    requires w < |prices|
    ensures ClosedEma(prices, w)
         == 2.0 / (w as real + 1.0) * prices[|prices| - 1]
            + (w as real - 1.0) / (w as real + 1.0) * ClosedEma(prices[..|prices| - 1], w)
  {
    var r, front := (w as real - 1.0) / (w as real + 1.0), prices[..|prices| - 1];
    var newest := 2.0 / (w as real + 1.0) * prices[|prices| - 1];
    WeightedNext(w, prices);
    SumAppend(Scaled(r, Weighted(w, front)), [newest]);
    SumOne(newest);
    SumScaled(r, Weighted(w, front));
    PowerNext(r, |front| - w);
    OneMore(r, Power(r, |front| - w), prices[w - 1], Sum(Weighted(w, front)), newest);
  }

  lemma OneMore(r: real, p: real, x: real, sum: real, newest: real)
    ensures r * p * x + (r * sum + newest) == newest + r * (p * x + sum)
  {
  }

  /** An EMA stays within the range of the prices seen. */
  lemma {:induction false} EmaInRange(prices: seq<real>, w: pos, low: real, high: real)
    requires Within(prices, low, high) && w <= |prices|
    ensures low <= EmaOver(prices, w).value <= high
  {
    var front := prices[..|prices| - 1];
    if w <= |front| {
      EmaInRange(front, w, low, high);
      AlphaRange(w);
      Blend(Alpha(w), prices[|prices| - 1], EmaOver(front, w).value, low, high);
    }
  }

  lemma {:induction false} EmaContinues(first: seq<real>, more: seq<real>, w: pos)
    requires w <= |first|
    ensures EmaOver(first + more, w) == Some(Fed(w, EmaOver(first, w).value, more))
  {
    var all := first + more;
    if more == [] {
      assert all == first;
    } else {
      EmaContinues(first, more[..|more| - 1], w);
      assert all[..|all| - 1] == first + more[..|more| - 1];
    }
  }

  function Distance(x: real, y: real): real {
    Abs(x - y)
  }

  lemma ShrinkDistance(b: real, d: real, range: real)
    requires 0.0 <= b && Abs(d) <= range
    ensures Abs(b * d) <= b * range
  {
    if d < 0.0 {
      assert b * d == -(b * (-d));
      Monotone(b, -d, range);
    } else {
      Monotone(b, d, range);
    }
  }

  lemma Monotone(b: real, x: real, y: real)
    requires 0.0 <= b && 0.0 <= x <= y
    ensures 0.0 <= b * x <= b * y
  {
    assert b * y == b * x + b * (y - x);
  }

  ghost predicate Near(a: Option<real>, b: Option<real>, bound: real) {
    (a.Some? <==> b.Some?) && (a.Some? ==> Distance(a.value, b.value) <= bound)
  }

  /**
    * Two price histories with EMAs of window w, continued by the same n prices, end at most
    * (1 - alpha)^n times the price range apart.
    */
  lemma SharedRest(a: seq<real>, b: seq<real>, a0: seq<real>, b0: seq<real>, rest: seq<real>, w: pos, low: real,
                   high: real)
    requires a == a0 + rest && b == b0 + rest && w <= |a0| && w <= |b0|
    requires Within(a, low, high) && Within(b, low, high)
    ensures Near(EmaOver(a, w), EmaOver(b, w), Shrunk(w, |rest|, high - low))
  {
    WithinFront(a0, rest, low, high);
    WithinFront(b0, rest, low, high);
    EmaInRange(a0, w, low, high);
    EmaInRange(b0, w, low, high);
    EmaContinues(a0, rest, w);
    EmaContinues(b0, rest, w);
    FedDistance(w, EmaOver(a0, w).value, EmaOver(b0, w).value, rest, low, high);
  }

  lemma WithinFront(front: seq<real>, more: seq<real>, low: real, high: real)
    requires Within(front + more, low, high)
    ensures Within(front, low, high)
  {
    forall i | 0 <= i < |front| ensures low <= front[i] <= high {
      assert (front + more)[i] == front[i];
    }
  }

  lemma FedDistance(w: pos, x: real, y: real, prices: seq<real>, low: real, high: real)
    requires low <= x <= high && low <= y <= high
    ensures Distance(Fed(w, x, prices), Fed(w, y, prices)) <= Shrunk(w, |prices|, high - low)
  {
    ShrunkIsPower(w, |prices|, high - low);
    FedDifference(w, x, y, prices);
    AlphaRange(w);
    PowerRange(1.0 - Alpha(w), |prices|);
    ShrinkDistance(Power(1.0 - Alpha(w), |prices|), x - y, high - low);
  }
}
