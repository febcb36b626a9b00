/** The full-history batch executor and its agreement with the bounded runtime (`batch_executor.py`). */
module Batch {
  import opened Sequences
  import opened Sorting
  import opened FeatureModel
  import opened Nodes
  import opened State
  import opened ScopeRuntime
  import opened LateEvents
  import opened Isolation
  import opened Snapshot

  /** What the executor keeps per scope: every price, not only the last ones. */
  datatype BatchScope = BatchScope(
    prices: seq<real>,
    previous: Option<real>,
    ema: AggStates,
    history: Histories)

  const NOTHING := BatchScope([], None, map[], map[])

  predicate Supported(kind: Kind) {
    !kind.Difference? && !kind.Ratio? && !kind.Clip?
  }

  /** As in the runtime, but without its guard on windows below two. */
  function BatchVolatility(x: Inputs, source: string, window: pos): Option<real> {
    var h := HistoryOf(x.history, x.event.scope, source);
    if |h| < window then None
    else
      var variance := Variance(LastN(h, window));
      Some(x.num.sqrt(if variance < 0.0 then 0.0 else variance))
  }

  function BatchZScore(x: Inputs, source: string, window: pos, current: Option<real>): Option<real> {
    var h := HistoryOf(x.history, x.event.scope, source);
    if |h| < window then None
    else
      var recent := LastN(h, window);
      var variance := Variance(recent);
      if variance <= 0.0 || current.None? then None
      else Some((current.value - Mean(recent)) / x.num.sqrt(variance))
  }

  function BatchReturn(x: Inputs): Option<real> {
    if x.previous.None? || x.previous.value <= 0.0 || x.event.price <= 0.0 then None
    else Some(x.num.ln(x.event.price / x.previous.value))
  }

  function BatchLag(x: Inputs, source: string, periods: pos): Option<real> {
    var h := HistoryOf(x.history, x.event.scope, source);
    if |h| < periods then None else Some(h[|h| - periods])
  }

  /** `_rolling_agg`. */
  function RollingAgg(values: seq<real>, aggregator: Aggregator): real
    requires !aggregator.Ema?
  {
    if values == [] then 0.0
    else
      match aggregator
      case Sma => Sum(values) / |values| as real
      case Max => MaxOf(values)
      case Min => MinOf(values)
  }

  function BatchRolling(x: Inputs, window: pos, aggregator: Aggregator, ema: AggStates): Outcome {
    if |x.prices| < window then Outcome(None, ema)
    else
      var values := x.prices[|x.prices| - window..];
      if aggregator.Ema? then
        var key := EmaKey(x.event.scope, window);
        var value := EmaStep(window, Lookup(ema, key), values[window - 1]);
        Outcome(Some(value), ema[key := value])
      else Outcome(Some(RollingAgg(values, aggregator)), ema)
  }

  /** `_compute_node`: `x.prices` is the whole price history. */
  function BatchCompute(x: Inputs, node: Node, context: map<string, real>, ema: AggStates): Outcome
    requires Supported(node.kind)
  {
    match node.kind
    case Price => Outcome(Some(x.event.price), ema)
    case Return => Outcome(BatchReturn(x), ema)
    case Rolling(window, aggregator) => BatchRolling(x, window, aggregator, ema)
    case Constant(value) => Outcome(Some(value), ema)
    case Lag(source, periods) => Outcome(BatchLag(x, source, periods), ema)
    case ZScore(source, window) => Outcome(BatchZScore(x, source, window, Lookup(context, source)), ema)
    case Volatility(source, window) => Outcome(BatchVolatility(x, source, window), ema)
    case MetadataJoin(alias, field) => Outcome(Lookup(x.event.joins, (alias, field)), ema)
  }

  predicate AllSupported(plan: seq<Node>) {
    forall i :: 0 <= i < |plan| ==> Supported(plan[i].kind)
  }

  function BatchAfterNode(x: Inputs, node: Node, pass: Pass): Pass
    requires Supported(node.kind)
  {
    var r := BatchCompute(x, node, pass.values, pass.ema);
    Pass(if r.value.Some? then pass.values[node.output := r.value.value] else pass.values, r.ema)
  }

  function BatchPlan(x: Inputs, plan: seq<Node>, pass: Pass): Pass
    requires AllSupported(plan)
  {
    if plan == [] then pass else BatchPlan(x, plan[1..], BatchAfterNode(x, plan[0], pass))
  }

  function BatchInputs(cfg: Config, b: BatchScope, event: Event): Inputs {
    Inputs(cfg.num, event, b.prices + [event.price], b.previous, b.history)
  }

  function BatchPass(cfg: Config, b: BatchScope, event: Event): Pass
    requires AllSupported(cfg.plan)
  {
    BatchPlan(BatchInputs(cfg, b, event), cfg.plan, Pass(map[], b.ema))
  }

  function BatchNext(cfg: Config, b: BatchScope, event: Event): BatchScope
    requires AllSupported(cfg.plan)
  {
    var pass := BatchPass(cfg, b, event);
    BatchScope(
      b.prices + [event.price],
      if event.price > 0.0 then Some(event.price) else b.previous,
      pass.ema,
      AppendHistory(b.history, event.scope, pass.values))
  }

  function BatchVector(cfg: Config, b: BatchScope, event: Event): Vector
    requires AllSupported(cfg.plan)
  {
    VectorFor(cfg, event, BatchPass(cfg, b, event).values)
  }

  function BatchAll(cfg: Config, events: seq<Event>): BatchScope
    requires AllSupported(cfg.plan)
  {
    if events == [] then NOTHING
    else BatchNext(cfg, BatchAll(cfg, events[..|events| - 1]), events[|events| - 1])
  }

  /** The windows on which both executors mean the same. */
  predicate Comparable(kind: Kind, window: nat) {
    && (kind.Rolling? ==> kind.window <= window)
    && (kind.Volatility? ==> 2 <= kind.window)
  }

  predicate AllComparable(plan: seq<Node>, window: nat) {
    AllSupported(plan) && forall i :: 0 <= i < |plan| ==> Comparable(plan[i].kind, window)
  }

  predicate WellFormed(cfg: Config) {
    AllComparable(cfg.plan, cfg.window)
  }

  /** The runtime's scope is the executor's with the price history cut to the window. */
  ghost predicate Matches(cfg: Config, s: ScopeState, b: BatchScope) {
    && s.prices == LastN(b.prices, cfg.window)
    && s.previous == b.previous
    && s.ema == b.ema
    && s.history == b.history
  }

  lemma SingleVariance(s: seq<real>)
    requires |s| == 1
    ensures Variance(s) == 0.0
  {
    assert s[1..] == [];
    assert Sum(s) == s[0];
    assert Mean(s) == s[0] / 1.0 == s[0];
    var d := SquaredDeviations(s, Mean(s));
    assert d[0] == 0.0 && d[1..] == [];
    assert Sum(d) == 0.0;
  }

  lemma SameWindow(prices: seq<real>, window: nat, w: pos)
    requires w <= window
    ensures |LastN(prices, window)| < w <==> |prices| < w
    ensures w <= |prices| ==> LastN(LastN(prices, window), w) == prices[|prices| - w..]
  {
  }

  lemma RollingAgree(x: Inputs, y: Inputs, window: nat, w: pos, aggregator: Aggregator, ema: AggStates)
    requires w <= window && x.event == y.event && x.prices == LastN(y.prices, window)
    ensures RollingOutcome(x, w, aggregator, ema) == BatchRolling(y, w, aggregator, ema)
  {
    SameWindow(y.prices, window, w);
    if w <= |y.prices| {
      FullWindowsAgree(x, y, w, aggregator, ema, y.prices[|y.prices| - w..]);
    }
  }

  lemma FullWindowsAgree(x: Inputs, y: Inputs, w: pos, aggregator: Aggregator, ema: AggStates, data: seq<real>)
    requires w <= |x.prices| && w <= |y.prices| && x.event == y.event
    requires LastN(x.prices, w) == data == y.prices[|y.prices| - w..]
    ensures RollingOutcome(x, w, aggregator, ema) == BatchRolling(y, w, aggregator, ema)
  {
    var previous := Lookup(ema, EmaKey(x.event.scope, w));
    if aggregator.Ema? {
      assert RollingValue(data, w, aggregator, previous) == EmaStep(w, previous, data[w - 1]);
    } else {
      SameRolling(data, w, aggregator, previous);
      assert BatchRolling(y, w, aggregator, ema) == Outcome(Some(RollingAgg(data, aggregator)), ema);
    }
  }

  lemma SameRolling(values: seq<real>, w: pos, aggregator: Aggregator, previous: Option<real>)
    requires |values| == w && !aggregator.Ema?
    ensures RollingValue(values, w, aggregator, previous) == RollingAgg(values, aggregator)
  {
  }

  ghost predicate SameButPrices(x: Inputs, y: Inputs) {
    x == y.(prices := x.prices)
  }

  lemma ZScoreAgree(x: Inputs, y: Inputs, source: string, w: pos, current: Option<real>)
    requires SameButPrices(x, y)
    ensures ZScoreValue(x, source, w, current) == BatchZScore(y, source, w, current)
  {
    var h := HistoryOf(x.history, x.event.scope, source);
    if w == 1 && 1 <= |h| {
      SingleVariance(LastN(h, 1));
    }
  }

  lemma ReturnAgrees(x: Inputs, y: Inputs)
    requires SameButPrices(x, y)
    ensures ReturnValue(x) == BatchReturn(y)
  {
  }

  lemma LagAgrees(x: Inputs, y: Inputs, source: string, periods: pos)
    requires SameButPrices(x, y)
    ensures LagValue(x, source, periods) == BatchLag(y, source, periods)
  {
  }

  lemma VolatilityAgrees(x: Inputs, y: Inputs, source: string, w: pos)
    requires SameButPrices(x, y) && 2 <= w
    ensures VolatilityValue(x, source, w) == BatchVolatility(y, source, w)
  {
  }

  /** On a comparable node the two executors compute the same. */
  lemma NodesAgree(x: Inputs, y: Inputs, node: Node, window: nat, context: map<string, real>, ema: AggStates)
    requires Supported(node.kind) && Comparable(node.kind, window)
    requires x == y.(prices := LastN(y.prices, window))
    ensures Compute(x, node, context, ema) == BatchCompute(y, node, context, ema)
  {
    match node.kind {
      case Rolling(w, aggregator) => RollingAgree(x, y, window, w, aggregator, ema);
      case ZScore(_, _) => HistoryNodesAgree(x, y, node, window, context, ema);
      case Lag(_, _) => HistoryNodesAgree(x, y, node, window, context, ema);
      case Volatility(_, _) => HistoryNodesAgree(x, y, node, window, context, ema);
      case Return => ReturnAgrees(x, y);
      case _ =>
    }
  }

  lemma HistoryNodesAgree(x: Inputs, y: Inputs, node: Node, window: nat, context: map<string, real>, ema: AggStates)
    requires (node.kind.ZScore? || node.kind.Lag? || node.kind.Volatility?) && Comparable(node.kind, window)
    requires SameButPrices(x, y)
    ensures Compute(x, node, context, ema) == BatchCompute(y, node, context, ema)
  {
    match node.kind {
      case ZScore(source, w) => ZScoreAgree(x, y, source, w, Lookup(context, source));
      case Lag(source, periods) => LagAgrees(x, y, source, periods);
      case Volatility(source, w) => VolatilityAgrees(x, y, source, w);
    }
  }

  lemma {:induction false} PlansAgree(x: Inputs, y: Inputs, plan: seq<Node>, window: nat, pass: Pass)
    requires AllComparable(plan, window)
    requires x == y.(prices := LastN(y.prices, window))
    ensures RunPlan(x, plan, pass) == BatchPlan(y, plan, pass)
  {
    if plan != [] {
      NodesAgree(x, y, plan[0], window, pass.values, pass.ema);
      PlansAgree(x, y, plan[1..], window, AfterNode(x, plan[0], pass));
    }
  }

  /** One event: same vector, and the scopes still match. */
  lemma EventAgrees(cfg: Config, s: ScopeState, b: BatchScope, event: Event)
    requires WellFormed(cfg) && Matches(cfg, s, b)
    ensures Emitted(cfg, s, event) == BatchVector(cfg, b, event)
    ensures Matches(cfg, Computed(cfg, s, event), BatchNext(cfg, b, event))
  {
    LastNAppend(b.prices, [event.price], cfg.window);
    PlansAgree(InputsFor(cfg, s, event), BatchInputs(cfg, b, event), cfg.plan, cfg.window, Pass(map[], s.ema));
  }

  /** Taking a scope's events in turn with a bounded queue is what the full history computes. */
  lemma {:induction false} HistoryAgrees(cfg: Config, events: seq<Event>)
    requires WellFormed(cfg)
    ensures Matches(cfg, TakenAll(cfg, EMPTY, events), BatchAll(cfg, events))
  {
    if events != [] {
      var front, last := events[..|events| - 1], events[|events| - 1];
      HistoryAgrees(cfg, front);
      EventAgrees(cfg, Recorded(cfg, TakenAll(cfg, EMPTY, front), last), BatchAll(cfg, front), last);
    }
  }

  /** For a rolling node outside the runtime's window the executors agree until the window fills. */
  lemma RollingAgreesIff(x: Inputs, y: Inputs, window: nat, w: pos, aggregator: Aggregator, ema: AggStates)
    requires x.event == y.event && x.prices == LastN(y.prices, window)
    ensures RollingOutcome(x, w, aggregator, ema) == BatchRolling(y, w, aggregator, ema)
      <==> w <= window || |y.prices| < w
  {
    if w <= window {
      RollingAgree(x, y, window, w, aggregator, ema);
    }
  }

  /** For a volatility node they agree when its window is at least two or nothing was emitted yet. */
  lemma VolatilityAgreesIff(x: Inputs, y: Inputs, source: string, w: pos)
    requires SameButPrices(x, y)
    ensures VolatilityValue(x, source, w) == BatchVolatility(y, source, w)
      <==> 2 <= w || HistoryOf(y.history, y.event.scope, source) == []
    ensures w == 1 && HistoryOf(y.history, y.event.scope, source) != [] ==>
      VolatilityValue(x, source, w) == None && BatchVolatility(y, source, w) == Some(y.num.sqrt(0.0))
  {
    if HistoryOf(y.history, y.event.scope, source) != [] {
      VarianceOfOne(LastN(HistoryOf(y.history, y.event.scope, source), 1)[0]);
      assert LastN(HistoryOf(y.history, y.event.scope, source), 1)
          == [LastN(HistoryOf(y.history, y.event.scope, source), 1)[0]];
    }
  }

  lemma VarianceOfOne(v: real)
    ensures Variance([v]) == 0.0
  {
    SumOne(v);
    assert Mean([v]) == v;
    SumOne(Squared(v - Mean([v])));
    assert SquaredDeviations([v], Mean([v])) == [Squared(v - Mean([v]))];
  }

  /** Within each scope, events come in order of availability. */
  ghost predicate ScopesInOrder(events: seq<Event>) {
    forall i, j :: 0 <= i < j < |events| && events[i].scope == events[j].scope
      ==> events[i].availableTs <= events[j].availableTs
  }

  /** A scope belongs to one symbol. */
  ghost predicate ScopesNameSymbols(events: seq<Event>) {
    forall i, j :: 0 <= i < |events| && 0 <= j < |events| && events[i].scope == events[j].scope
      ==> events[i].symbol == events[j].symbol
  }

  lemma SortedScopes(events: seq<Event>)
    requires SortedBy(events, SymbolEventLe) && ScopesNameSymbols(events)
    ensures ScopesInOrder(events)
  {
  }

  /** In-order events are taken as they come, whatever the interleaving and the policy. */
  lemma {:induction false} InOrderViews(cfg: Config, policy: Policy, e: Engine, events: seq<Event>, scope: Scope)
    requires Sound(cfg, e) && ScopesInOrder(events) && forall other :: ViewOf(e.tables, other) == EMPTY
    ensures Sound(cfg, Run(cfg, policy, e, events))
    ensures ViewOf(Run(cfg, policy, e, events).tables, scope) == TakenAll(cfg, EMPTY, Only(scope, events))
  {
    RunSound(cfg, policy, e, events);
    if events != [] {
      var front, last := events[..|events| - 1], events[|events| - 1];
      InOrderViews(cfg, policy, e, front, scope);
      StepView(cfg, policy, Run(cfg, policy, e, front), last, scope);
      OnlyLast(scope, events);
      if scope == last.scope {
        NeverLate(cfg, events);
        TakenNext(cfg, Only(scope, front), last);
      } else {
        assert Only(scope, events) == Only(scope, front);
      }
    }
  }

  lemma NeverLate(cfg: Config, events: seq<Event>)
    requires ScopesInOrder(events) && events != []
    ensures var front, last := events[..|events| - 1], events[|events| - 1];
            !Late(TakenAll(cfg, EMPTY, Only(last.scope, front)), last)
  {
    var front, last := events[..|events| - 1], events[|events| - 1];
    var rows := Only(last.scope, front);
    if rows != [] {
      var newest := rows[|rows| - 1];
      FilterMembers(front, (e: Event) => e.scope == last.scope, newest);
      var i :| 0 <= i < |front| && front[i] == newest;
      assert events[i] == newest;
      assert TakenAll(cfg, EMPTY, rows).watermark == Some(newest.availableTs);
    }
  }

  /** The vector of the k-th event from the whole history of its scope. */
  function BatchOutput(cfg: Config, events: seq<Event>, k: nat): Vector
    requires AllSupported(cfg.plan) && k < |events|
  {
    BatchVector(cfg, BatchAll(cfg, Only(events[k].scope, events[..k])), events[k])
  }

  /** The k-th event yields the vector of the full history. */
  ghost predicate YieldsBatch(cfg: Config, policy: Policy, e: Engine, events: seq<Event>, k: nat)
    requires AllSupported(cfg.plan) && k < |events|
  {
    RunOutputs(cfg, policy, e, events)[k] == Some(BatchOutput(cfg, events, k))
  }

  /** Streaming equals batch: every in-order event yields the vector of the full history. */
  lemma StreamingEqualsBatch(cfg: Config, policy: Policy, e: Engine, events: seq<Event>)
    requires WellFormed(cfg) && Sound(cfg, e) && ScopesInOrder(events)
    requires forall scope :: ViewOf(e.tables, scope) == EMPTY
    ensures forall k :: 0 <= k < |events| ==> YieldsBatch(cfg, policy, e, events, k)
  {
    forall k | 0 <= k < |events| ensures YieldsBatch(cfg, policy, e, events, k) {
      KthOutputAgrees(cfg, policy, e, events, k);
    }
  }

  lemma KthOutputAgrees(cfg: Config, policy: Policy, e: Engine, events: seq<Event>, k: nat)
    requires WellFormed(cfg) && Sound(cfg, e) && ScopesInOrder(events) && k < |events|
    requires forall scope :: ViewOf(e.tables, scope) == EMPTY
    ensures YieldsBatch(cfg, policy, e, events, k)
  {
    LastOutputAgrees(cfg, policy, e, events[..k + 1]);
    EarlierOutput(cfg, policy, e, events, k);
  }

  /** Later events change no earlier output of either executor. */
  lemma EarlierOutput(cfg: Config, policy: Policy, e: Engine, events: seq<Event>, k: nat)
    requires AllSupported(cfg.plan) && k < |events|
    ensures YieldsBatch(cfg, policy, e, events, k) <==> YieldsBatch(cfg, policy, e, events[..k + 1], k)
  {
    EarlierRun(cfg, policy, e, events, k);
    TakeNext(events, k);
  }

  lemma EarlierRun(cfg: Config, policy: Policy, e: Engine, events: seq<Event>, k: nat)
    requires k < |events|
    ensures RunOutputs(cfg, policy, e, events)[k] == RunOutputs(cfg, policy, e, events[..k + 1])[k]
  {
    RunIsFold(cfg, policy, e, events);
    RunIsFold(cfg, policy, e, events[..k + 1]);
    TracePrefix(StepIn(cfg, policy), OutputIn(cfg, policy), e, events, k);
  }

  lemma LastOutputAgrees(cfg: Config, policy: Policy, e: Engine, events: seq<Event>)
    requires WellFormed(cfg) && Sound(cfg, e) && ScopesInOrder(events) && events != []
    requires forall scope :: ViewOf(e.tables, scope) == EMPTY
    ensures YieldsBatch(cfg, policy, e, events, |events| - 1)
  {
    var front, last := events[..|events| - 1], events[|events| - 1];
    InOrderViews(cfg, policy, e, front, last.scope);
    NeverLate(cfg, events);
    var rows := Only(last.scope, front);
    HistoryAgrees(cfg, rows);
    EventAgrees(cfg, Recorded(cfg, TakenAll(cfg, EMPTY, rows), last), BatchAll(cfg, rows), last);
  }
}
