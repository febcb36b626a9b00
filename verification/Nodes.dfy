/** Evaluation of one event by the planned nodes (`nodes.py`, the node loop of `runtime.py`). */
module Nodes {
  import opened Sequences
  import opened FeatureModel

  const HISTORY_LIMIT := 512

  datatype AggItem = AggItem(kind: string, window: nat)

  type AggStates = map<Key<AggItem>, real>

  type Histories = map<Key<string>, seq<real>>

  /** What stays fixed while the nodes look at one event. */
  datatype Inputs = Inputs(
    num: Numerics,
    event: Event,
    prices: seq<real>,
    previous: Option<real>,
    history: Histories)

  datatype Outcome = Outcome(value: Option<real>, ema: AggStates)

  /** The values emitted so far, which are also what later nodes read, and the EMA states. */
  datatype Pass = Pass(values: map<string, real>, ema: AggStates)

  function Sum(s: seq<real>): real {
    if s == [] then 0.0 else s[0] + Sum(s[1..])
  }

  lemma {:induction false} SumAppend(a: seq<real>, b: seq<real>)
    ensures Sum(a + b) == Sum(a) + Sum(b)
  {
    if a == [] {
      assert a + b == b;
    } else {
      ConsAppend(a, b);
      SumAppend(a[1..], b);
    }
  }

  lemma SumOne(x: real)
    ensures Sum([x]) == x && Sum([]) == 0.0
  {
    assert [x][1..] == [];
  }

  function MaxOf(s: seq<real>): (m: real)
    requires s != []
    ensures m in s && forall x :: x in s ==> x <= m
  {
    if |s| == 1 then s[0]
    else
      assert s == [s[0]] + s[1..];
      var m := MaxOf(s[1..]);
      if m < s[0] then s[0] else m
  }

  function MinOf(s: seq<real>): (m: real)
    requires s != []
    ensures m in s && forall x :: x in s ==> m <= x
  {
    if |s| == 1 then s[0]
    else
      assert s == [s[0]] + s[1..];
      var m := MinOf(s[1..]);
      if s[0] < m then s[0] else m
  }

  function Mean(s: seq<real>): (m: real)
    requires s != []
    ensures m * |s| as real == Sum(s)
  {
    Sum(s) / |s| as real
  }

  function Squared(x: real): real {
    x * x
  }

  function SquaredDeviations(s: seq<real>, mean: real): (r: seq<real>)
    ensures |r| == |s| && forall i :: 0 <= i < |s| ==> r[i] == (s[i] - mean) * (s[i] - mean)
  {
    seq(|s|, i requires 0 <= i < |s| => Squared(s[i] - mean))
  }

  function Variance(s: seq<real>): (v: real)
    requires s != []
    ensures v * |s| as real == Sum(SquaredDeviations(s, Mean(s)))
  {
    Sum(SquaredDeviations(s, Mean(s))) / |s| as real
  }

  function Abs(x: real): (r: real)
    ensures 0.0 <= r && (r == x || r == 0.0 - x)
  {
    if x < 0.0 then -x else x
  }

  function HistoryOf(history: Histories, scope: Scope, name: string): seq<real> {
    var key := Key(scope, name);
    if key in history then history[key] else []
  }

  function EmaKey(scope: Scope, window: pos): Key<AggItem> {
    Key(scope, AggItem("ema", window))
  }

  function Lookup<K, V>(m: map<K, V>, k: K): Option<V> {
    if k in m then Some(m[k]) else None
  }

  function Alpha(window: pos): real {
    2.0 / (window as real + 1.0)
  }

  function EmaStep(window: pos, previous: Option<real>, current: real): real {
    match previous
    case None => current
    case Some(p) => Alpha(window) * current + (1.0 - Alpha(window)) * p
  }

  function RollingValue(data: seq<real>, window: pos, aggregator: Aggregator, previous: Option<real>): real
    requires |data| == window
  {
    match aggregator
    case Sma => Sum(data) / window as real
    case Ema => EmaStep(window, previous, data[window - 1])
    case Max => MaxOf(data)
    case Min => MinOf(data)
  }

  function ReturnValue(x: Inputs): Option<real> {
    if x.previous.None? || x.previous.value <= 0.0 || x.event.price <= 0.0 then None
    else Some(x.num.ln(x.event.price / x.previous.value))
  }

  function LagValue(x: Inputs, source: string, periods: pos): Option<real> {
    var h := HistoryOf(x.history, x.event.scope, source);
    if |h| < periods then None else Some(h[|h| - periods])
  }

  function ZScoreValue(x: Inputs, source: string, window: pos, current: Option<real>): Option<real> {
    var h := HistoryOf(x.history, x.event.scope, source);
    if window < 2 || |h| < window then None
    else
      var recent := LastN(h, window);
      var variance := Variance(recent);
      if variance <= 0.0 || current.None? then None
      else Some((current.value - Mean(recent)) / x.num.sqrt(variance))
  }

  function VolatilityValue(x: Inputs, source: string, window: pos): Option<real> {
    var h := HistoryOf(x.history, x.event.scope, source);
    if window < 2 || |h| < window then None
    else
      var variance := Variance(LastN(h, window));
      Some(x.num.sqrt(if variance < 0.0 then 0.0 else variance))
  }

  function DifferenceValue(left: Option<real>, right: Option<real>): Option<real> {
    if left.None? || right.None? then None else Some(left.value - right.value)
  }

  function RatioValue(top: Option<real>, bottom: Option<real>, epsilon: nonneg): Option<real> {
    if top.None? || bottom.None? || Abs(bottom.value) <= epsilon then None
    else Some(top.value / bottom.value)
  }

  function ClipValue(value: Option<real>, low: Option<real>, high: Option<real>): Option<real> {
    if value.None? then None
    else
      var raised := if low.Some? && value.value < low.value then low.value else value.value;
      Some(if high.Some? && high.value < raised then high.value else raised)
  }

  function RollingOutcome(x: Inputs, window: pos, aggregator: Aggregator, ema: AggStates): Outcome {
    if |x.prices| < window then Outcome(None, ema)
    else
      var key := EmaKey(x.event.scope, window);
      var value := RollingValue(LastN(x.prices, window), window, aggregator, Lookup(ema, key));
      Outcome(Some(value), if aggregator.Ema? then ema[key := value] else ema)
  }

  /** One node's `compute`. Only an EMA writes state. */
  function Compute(x: Inputs, node: Node, context: map<string, real>, ema: AggStates): Outcome {
    match node.kind
    case Price => Outcome(Some(x.event.price), ema)
    case Return => Outcome(ReturnValue(x), ema)
    case Rolling(window, aggregator) => RollingOutcome(x, window, aggregator, ema)
    case Constant(value) => Outcome(Some(value), ema)
    case Lag(source, periods) => Outcome(LagValue(x, source, periods), ema)
    case ZScore(source, window) => Outcome(ZScoreValue(x, source, window, Lookup(context, source)), ema)
    case Volatility(source, window) => Outcome(VolatilityValue(x, source, window), ema)
    case MetadataJoin(alias, field) => Outcome(Lookup(x.event.joins, (alias, field)), ema)
    case Difference(left, right) => Outcome(DifferenceValue(Lookup(context, left), Lookup(context, right)), ema)
    case Ratio(top, bottom, epsilon) =>
      Outcome(RatioValue(Lookup(context, top), Lookup(context, bottom), epsilon), ema)
    case Clip(source, low, high) => Outcome(ClipValue(Lookup(context, source), low, high), ema)
  }

  function AfterNode(x: Inputs, node: Node, pass: Pass): Pass {
    var r := Compute(x, node, pass.values, pass.ema);
    Pass(if r.value.Some? then pass.values[node.output := r.value.value] else pass.values, r.ema)
  }

  /** The nodes in plan order, each reading what the earlier ones emitted. */
  function RunPlan(x: Inputs, nodes: seq<Node>, pass: Pass): Pass {
    if nodes == [] then pass else RunPlan(x, nodes[1..], AfterNode(x, nodes[0], pass))
  }

  lemma {:induction false} RunPlanAppend(x: Inputs, a: seq<Node>, b: seq<Node>, pass: Pass)
    ensures RunPlan(x, a + b, pass) == RunPlan(x, b, RunPlan(x, a, pass))
  {
    if a == [] {
      assert a + b == b;
    } else {
      assert (a + b)[1..] == a[1..] + b;
      RunPlanAppend(x, a[1..], b, AfterNode(x, a[0], pass));
    }
  }

  predicate Between(low: Option<real>, value: real, high: Option<real>) {
    (low.Some? ==> low.value <= value) && (high.Some? ==> value <= high.value)
  }

  /** A clipped value is the one nearest to the value between the given bounds; of crossed bounds the upper one wins. */
  lemma ClipIsNearest(value: real, low: Option<real>, high: Option<real>)
    ensures var clipped := ClipValue(Some(value), low, high);
            && clipped.Some?
            && (low.Some? && high.Some? && high.value < low.value ==> clipped == high)
            && (Between(low, clipped.value, high) <==> !(low.Some? && high.Some? && high.value < low.value))
            && forall other :: Between(low, other, high) ==> Abs(value - clipped.value) <= Abs(value - other)
  {
  }
}
