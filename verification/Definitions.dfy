/** Legacy feature sets, and why both executors agree on them (`definitions.py`). */
module Definitions {
  import opened Sequences
  import opened Sorting
  import opened FeatureModel
  import opened Snapshot
  import opened PlanOrder
  import opened Batch
  import opened ScopeRuntime
  import opened Runtime
  import opened Nodes
  import opened AsofJoin
  import opened Materialization
  import opened Parity
  import opened Dag

  function AggregatorName(a: Aggregator): (r: string)
    ensures |r| == 3
  {
    match a
    case Sma => "sma"
    case Ema => "ema"
    case Max => "max"
    case Min => "min"
  }

  /** `f"{agg}_{window}"`. */
  function FeatureName(a: Aggregator, window: pos): string {
    AggregatorName(a) + ("_" + NatText(window))
  }

  lemma FeatureNameInjective(a: Aggregator, v: pos, b: Aggregator, w: pos)
    ensures FeatureName(a, v) == FeatureName(b, w) <==> a == b && v == w
    ensures FeatureName(a, v) != "price" && FeatureName(a, v) != "ret_1" && FeatureName(a, v) != "window_max"
  {
    var x, y := FeatureName(a, v), FeatureName(b, w);
    assert x[..3] == AggregatorName(a) && y[..3] == AggregatorName(b);
    assert x[4..] == NatText(v) && y[4..] == NatText(w);
    ParseNatText(v);
    ParseNatText(w);
    assert "price"[..3] == "pri" && "ret_1"[..3] == "ret" && "window_max"[..3] == "win";
  }

  const PRICE_NODE := Node("price", "price", [], Price)

  const RETURN_NODE := Node("ret_1", "ret_1", ["price"], Return)

  function RollingNode(a: Aggregator, window: pos): Node {
    Node(FeatureName(a, window), FeatureName(a, window), ["price"], Rolling(window, a))
  }

  function NodesAt(window: pos, aggregators: seq<Aggregator>): (r: seq<Node>)
    ensures |r| == |aggregators|
  {
    seq(|aggregators|, i requires 0 <= i < |aggregators| => RollingNode(aggregators[i], window))
  }

  function RollingNodes(windows: seq<pos>, aggregators: seq<Aggregator>): seq<Node> {
    if windows == [] then []
    else RollingNodes(windows[..|windows| - 1], aggregators) + NodesAt(windows[|windows| - 1], aggregators)
  }

  function LargestNode(windows: seq<pos>): Node {
    Node("window_max", "window_max", [], Constant(if windows == [] then 0.0 else MaxWindow(windows) as real))
  }

  function LegacyNodes(windows: seq<pos>, aggregators: seq<Aggregator>): seq<Node> {
    [PRICE_NODE, RETURN_NODE] + RollingNodes(windows, aggregators) + [LargestNode(windows)]
  }

  lemma DistinctNamesAppend(a: seq<Node>, b: seq<Node>)
    ensures DistinctNames(a + b)
       <==> DistinctNames(a) && DistinctNames(b)
            && forall i, j :: 0 <= i < |a| && 0 <= j < |b| ==> a[i].name != b[j].name
  {
    if DistinctNames(a + b) {
      forall i, j | 0 <= i < |a| && 0 <= j < |b| ensures a[i].name != b[j].name {
        assert (a + b)[i] == a[i] && (a + b)[|a| + j] == b[j];
      }
      forall i, j | 0 <= i < j < |b| ensures b[i].name != b[j].name {
        assert (a + b)[|a| + i] == b[i] && (a + b)[|a| + j] == b[j];
      }
      forall i, j | 0 <= i < j < |a| ensures a[i].name != a[j].name {
        assert (a + b)[i] == a[i] && (a + b)[j] == a[j];
      }
    }
  }

  lemma NodesAtDistinct(window: pos, aggregators: seq<Aggregator>)
    ensures DistinctNames(NodesAt(window, aggregators)) <==> Distinct(aggregators)
  {
    var nodes := NodesAt(window, aggregators);
    forall i, j | 0 <= i < j < |aggregators|
      ensures nodes[i].name != nodes[j].name <==> aggregators[i] != aggregators[j] {
      FeatureNameInjective(aggregators[i], window, aggregators[j], window);
    }
  }

  /** A rolling node of one of the windows. */
  predicate IsRolling(node: Node, windows: seq<pos>) {
    node.kind.Rolling? && node == RollingNode(node.kind.aggregator, node.kind.window) && node.kind.window in windows
  }

  lemma {:induction false} AllRolling(windows: seq<pos>, aggregators: seq<Aggregator>)
    ensures forall node :: node in RollingNodes(windows, aggregators) ==> IsRolling(node, windows)
  {
    if windows != [] {
      AllRolling(windows[..|windows| - 1], aggregators);
      forall node | node in RollingNodes(windows, aggregators) ensures IsRolling(node, windows) {
        if node in RollingNodes(windows[..|windows| - 1], aggregators) {
          assert IsRolling(node, windows[..|windows| - 1]);
        }
      }
    }
  }

  /** Names are distinct just when the aggregators are, or there is no window to use them on. */
  lemma {:induction false} RollingDistinct(windows: seq<pos>, aggregators: seq<Aggregator>)
    requires Distinct(windows)
    ensures DistinctNames(RollingNodes(windows, aggregators)) <==> windows == [] || Distinct(aggregators)
  {
    if windows != [] {
      var front, w := windows[..|windows| - 1], windows[|windows| - 1];
      RollingDistinct(front, aggregators);
      var a, b := RollingNodes(front, aggregators), NodesAt(w, aggregators);
      DistinctNamesAppend(a, b);
      NodesAtDistinct(w, aggregators);
      AllRolling(front, aggregators);
      forall i, j | 0 <= i < |a| && 0 <= j < |b| ensures a[i].name != b[j].name {
        assert a[i] in a && IsRolling(a[i], front);
        FeatureNameInjective(a[i].kind.aggregator, a[i].kind.window, aggregators[j], w);
      }
    }
  }

  lemma LegacyDistinct(windows: seq<pos>, aggregators: seq<Aggregator>)
    requires Distinct(windows)
    ensures DistinctNames(LegacyNodes(windows, aggregators)) <==> windows == [] || Distinct(aggregators)
  {
    var head, rolling, tail := [PRICE_NODE, RETURN_NODE], RollingNodes(windows, aggregators), [LargestNode(windows)];
    RollingDistinct(windows, aggregators);
    AllRolling(windows, aggregators);
    forall i | 0 <= i < |rolling|
      ensures rolling[i].name != "price" && rolling[i].name != "ret_1" && rolling[i].name != "window_max" {
      assert rolling[i] in rolling && IsRolling(rolling[i], windows);
      FeatureNameInjective(rolling[i].kind.aggregator, rolling[i].kind.window, Sma, 1);
    }
    DistinctNamesAppend(head, rolling);
    DistinctNamesAppend(head + rolling, tail);
  }

  lemma LegacyMembers(windows: seq<pos>, aggregators: seq<Aggregator>)
    ensures var nodes := LegacyNodes(windows, aggregators);
            && nodes[0] == PRICE_NODE
            && forall i :: 0 < i < |nodes| ==>
                 nodes[i] == RETURN_NODE || nodes[i] == LargestNode(windows) || IsRolling(nodes[i], windows)
  {
    var nodes, rolling := LegacyNodes(windows, aggregators), RollingNodes(windows, aggregators);
    AllRolling(windows, aggregators);
    forall i | 1 < i < |nodes| - 1 ensures IsRolling(nodes[i], windows) {
      assert nodes[i] == rolling[i - 2] && rolling[i - 2] in rolling;
    }
  }

  lemma LegacyOrdered(windows: seq<pos>, aggregators: seq<Aggregator>)
    ensures Ordered(LegacyNodes(windows, aggregators))
  {
    var nodes := LegacyNodes(windows, aggregators);
    LegacyMembers(windows, aggregators);
    forall i, j | 0 <= i < |nodes| && 0 <= j < |nodes| && nodes[j].name in nodes[i].dependencies ensures j < i {
      assert nodes[j].name == "price" && i != 0;
      if 0 < j && IsRolling(nodes[j], windows) {
        FeatureNameInjective(nodes[j].kind.aggregator, nodes[j].kind.window, Sma, 1);
      }
    }
  }

  /** A legacy set can be planned exactly when no aggregator is listed twice, or there are no windows. */
  lemma LegacyPlannable(windows: seq<pos>, aggregators: seq<Aggregator>)
    requires Distinct(windows)
    ensures Plan(LegacyNodes(windows, aggregators)).Some? <==> windows == [] || Distinct(aggregators)
  {
    var nodes := LegacyNodes(windows, aggregators);
    LegacyDistinct(windows, aggregators);
    LegacyOrdered(windows, aggregators);
    PlanCorrect(nodes);
    if DistinctNames(nodes) {
      OrderedAcyclic(nodes, nodes);
    }
  }

  /** Each node emits under its own name, and what it reads it declares. */
  predicate Declared(node: Node) {
    node.output == node.name && forall name :: name in Reads(node.kind) ==> name in node.dependencies
  }

  predicate SameEma(a: Kind, b: Kind) {
    a.Rolling? && b.Rolling? && a.aggregator.Ema? && b.aggregator.Ema? && a.window == b.window
  }

  ghost predicate OneEmaPerWindow(nodes: seq<Node>) {
    forall a, b :: a in nodes && b in nodes && SameEma(a.kind, b.kind) ==> a == b
  }

  /** Any topological order of declared nodes with distinct names can be run like any other. */
  lemma OrderedIsOrderable(nodes: seq<Node>)
    requires DistinctNames(nodes) && Ordered(nodes) && OneEmaPerWindow(nodes)
    requires forall i :: 0 <= i < |nodes| ==> Declared(nodes[i])
    ensures Orderable(nodes)
  {
    forall i, j | 0 <= i < j < |nodes| ensures nodes[i].output != nodes[j].output && nodes[i] != nodes[j] {
      assert nodes[i].output == nodes[i].name && nodes[j].output == nodes[j].name;
    }
    forall i, j | 0 <= i < j < |nodes| && nodes[i].kind.Rolling? && nodes[j].kind.Rolling?
      && nodes[i].kind.aggregator.Ema? && nodes[j].kind.aggregator.Ema?
      ensures nodes[i].kind.window != nodes[j].kind.window
    {
      assert nodes[i] in nodes && nodes[j] in nodes;
    }
    forall i, j | 0 <= i < |nodes| && 0 <= j < |nodes| && nodes[j].output in Reads(nodes[i].kind) ensures j < i {
      assert Declared(nodes[i]) && Declared(nodes[j]);
    }
  }

  /** For declared nodes, all topological orders give the same values and the same EMA states. */
  lemma TopologicalOrdersAgree(x: Inputs, p: seq<Node>, q: seq<Node>, ema: AggStates)
    requires multiset(p) == multiset(q) && DistinctNames(p) && Ordered(p) && DistinctNames(q) && Ordered(q)
    requires OneEmaPerWindow(p) && forall i :: 0 <= i < |p| ==> Declared(p[i])
    ensures RunPlan(x, p, Pass(map[], ema)) == RunPlan(x, q, Pass(map[], ema))
  {
    SameMembers(p, q);
    forall i | 0 <= i < |q| ensures Declared(q[i]) {
      assert q[i] in q;
    }
    OrderedIsOrderable(p);
    OrderedIsOrderable(q);
    PlanOrderIrrelevant(x, p, q, ema);
  }

  const TOLERANCES := map["price" := 0.0, "ret_1" := 0.000000000001]

  /** The tolerances of the rolling features on top of others. */
  function Tolerated(tolerances: map<string, real>, rolling: seq<Node>): map<string, real> {
    if rolling == [] then tolerances
    else Tolerated(tolerances, rolling[..|rolling| - 1])[rolling[|rolling| - 1].name := 0.000000001]
  }

  lemma {:induction false} ToleratedNonNegative(tolerances: map<string, real>, rolling: seq<Node>)
    requires forall name :: name in tolerances ==> 0.0 <= tolerances[name]
    ensures forall name :: name in Tolerated(tolerances, rolling) ==> 0.0 <= Tolerated(tolerances, rolling)[name]
  {
    if rolling != [] {
      ToleratedNonNegative(tolerances, rolling[..|rolling| - 1]);
    }
  }

  function LegacyFeatureSet(name: string, version: string, windows: seq<pos>,
                            aggregators: seq<Aggregator>): FeatureSet {
    FeatureSet(name, version, windows, LegacyNodes(windows, aggregators),
               Tolerated(TOLERANCES, RollingNodes(windows, aggregators))["window_max" := 0.0])
  }

  ghost predicate Agreeable(node: Node, window: pos) {
    Supported(node.kind) && Comparable(node.kind, window) && Declared(node)
  }

  lemma LegacyAgreeable(windows: seq<pos>, aggregators: seq<Aggregator>)
    ensures forall node :: node in LegacyNodes(windows, aggregators) ==> Agreeable(node, EffectiveWindow(windows))
    ensures OneEmaPerWindow(LegacyNodes(windows, aggregators))
  {
    LegacyMembers(windows, aggregators);
    var nodes := LegacyNodes(windows, aggregators);
    forall node | node in nodes
      ensures Agreeable(node, EffectiveWindow(windows))
        && (node.kind.Rolling? ==> node == RollingNode(node.kind.aggregator, node.kind.window))
    {
      var i :| 0 <= i < |nodes| && nodes[i] == node;
    }
  }

  lemma PlanMembersOf(nodes: seq<Node>)
    requires Plan(nodes).Some?
    ensures forall node :: node in Plan(nodes).value <==> node in nodes
  {
    PlanCorrect(nodes);
    SameMembers(Plan(nodes).value, nodes);
  }

  /** Planned, a legacy set meets what both executors need to agree. */
  lemma LegacyWellFormed(num: Numerics, name: string, version: string, windows: seq<pos>, aggregators: seq<Aggregator>)
    requires Distinct(windows) && (windows == [] || Distinct(aggregators))
    ensures var features := LegacyFeatureSet(name, version, windows, aggregators);
            && Plan(features.nodes).Some? && WellFormed(ConfigOf(num, features))
               && Orderable(Plan(features.nodes).value)
  {
    LegacyPlannable(windows, aggregators);
    LegacyAgreeable(windows, aggregators);
    AgreeablePlan(LegacyNodes(windows, aggregators), EffectiveWindow(windows));
  }

  lemma AgreeablePlan(nodes: seq<Node>, window: pos)
    requires Plan(nodes).Some? && OneEmaPerWindow(nodes)
    requires forall node :: node in nodes ==> Agreeable(node, window)
    ensures AllComparable(Plan(nodes).value, window) && Orderable(Plan(nodes).value)
  {
    var plan := Plan(nodes).value;
    PlanCorrect(nodes);
    PlanMembersOf(nodes);
    forall i | 0 <= i < |plan| ensures Agreeable(plan[i], window) {
      assert plan[i] in plan;
    }
    OrderedIsOrderable(plan);
  }

  /** So its parity check passes on every stream in which a scope belongs to one symbol. */
  lemma LegacyParityPasses(num: Numerics, name: string, version: string, windows: seq<pos>,
                           aggregators: seq<Aggregator>, tolerance: real, events: seq<Event>,
                           lineage: string, result: ParityResult)
    requires Distinct(windows) && (windows == [] || Distinct(aggregators))
    requires ScopesNameSymbols(events)
    requires var features := LegacyFeatureSet(name, version, windows, aggregators);
             Plan(features.nodes).Some? &&
             var cfg, sorted := ConfigOf(num, features), Sort(events, SymbolEventLe);
             Checked(cfg, sorted, Tolerances(features.tolerances, tolerance),
                     ByKey(Materialized(cfg, PreparedAll([], sorted), lineage)), result)
    ensures result == Report([])
  {
    var features := LegacyFeatureSet(name, version, windows, aggregators);
    LegacyWellFormed(num, name, version, windows, aggregators);
    var t := Tolerances(features.tolerances, tolerance);
    LegacyTolerances(name, version, windows, aggregators, tolerance);
    PlanMembersOf(features.nodes);
    NothingNegative(ConfigOf(num, features), Sort(events, SymbolEventLe), t);
    ParityPasses(ConfigOf(num, features), events, lineage, t, result);
  }

  /** Every legacy feature has a tolerance of its own, so the default is never met. */
  lemma LegacyTolerances(name: string, version: string, windows: seq<pos>, aggregators: seq<Aggregator>,
                         tolerance: real)
    ensures var t := Tolerances(LegacyFeatureSet(name, version, windows, aggregators).tolerances, tolerance);
            forall node :: node in LegacyNodes(windows, aggregators) ==> 0.0 <= Allowed(t, node.output)
  {
    var rolling := RollingNodes(windows, aggregators);
    ToleratedNonNegative(TOLERANCES, rolling);
    AllRolling(windows, aggregators);
    forall node | node in LegacyNodes(windows, aggregators)
      ensures node.output in Tolerated(TOLERANCES, rolling)["window_max" := 0.0]
    {
      ToleratedHas(TOLERANCES, rolling, "price");
      ToleratedHas(TOLERANCES, rolling, "ret_1");
      ToleratedHas(TOLERANCES, rolling, node.output);
    }
  }

  lemma {:induction false} ToleratedHas(tolerances: map<string, real>, rolling: seq<Node>, name: string)
    ensures name in Tolerated(tolerances, rolling)
       <==> name in tolerances || exists node :: node in rolling && node.name == name
  {
    if rolling != [] {
      FrontLast(rolling);
      ToleratedHas(tolerances, rolling[..|rolling| - 1], name);
    }
  }

  lemma NothingNegative(cfg: Config, sorted: seq<Event>, t: Tolerances)
    requires AllSupported(cfg.plan) && forall node :: node in cfg.plan ==> 0.0 <= Allowed(t, node.output)
    ensures !NegativeToleranceMet(cfg, sorted, t)
  {
    var vectors := BatchVectors(cfg, sorted);
    forall k, name | k in ByKey(vectors) && name in ByKey(vectors)[k].values ensures 0.0 <= Allowed(t, name) {
      ByKeyFrom(vectors, k);
      var i :| 0 <= i < |vectors| && vectors[i] == ByKey(vectors)[k];
      var event, b := sorted[i], BatchAll(cfg, Only(sorted[i].scope, sorted[..i]));
      assert vectors[i] == BatchVector(cfg, b, event);
      BatchNames(BatchInputs(cfg, b, event), cfg.plan, Pass(map[], b.ema), name);
    }
  }

  lemma {:induction false} ByKeyFrom(vectors: seq<Vector>, k: VectorKey)
    ensures k in ByKey(vectors) ==> ByKey(vectors)[k] in vectors
  {
    if vectors != [] {
      ByKeyFrom(vectors[..|vectors| - 1], k);
    }
  }

  /** Nodes emit under their own outputs only. */
  lemma {:induction false} BatchNames(x: Inputs, plan: seq<Node>, pass: Pass, name: string)
    requires AllSupported(plan) && name in BatchPlan(x, plan, pass).values
    ensures name in pass.values || exists node :: node in plan && node.output == name
  {
    if plan != [] {
      BatchNames(x, plan[1..], BatchAfterNode(x, plan[0], pass), name);
      assert plan[0] in plan && forall node :: node in plan[1..] ==> node in plan;
    }
  }

  /** `tuple(sorted(set(windows)))`. */
  method SortedSet(windows: seq<pos>) returns (sorted: seq<pos>)
    ensures forall i, j :: 0 <= i < j < |sorted| ==> sorted[i] < sorted[j]
    ensures forall w :: w in sorted <==> w in windows
  {
    var listed: seq<pos> := [];
    for i := 0 to |windows|
      invariant Distinct(listed) && forall w :: w in listed <==> w in windows[..i]
    {
      if windows[i] !in listed {
        listed := listed + [windows[i]];
      }
    }
    sorted := Sort(listed, PosLe);
    SortSorted(listed, PosLe);
    SortMembers(listed, PosLe);
    DistinctAscends(listed, sorted);
  }

  predicate PosLe(a: pos, b: pos) {
    a <= b
  }

  lemma DistinctAscends(listed: seq<pos>, sorted: seq<pos>)
    requires Distinct(listed) && SortedBy(sorted, PosLe) && multiset(sorted) == multiset(listed)
    ensures forall i, j :: 0 <= i < j < |sorted| ==> sorted[i] < sorted[j]
  {
    DistinctPermutation(listed, sorted);
  }

  lemma ToleratedNext(rolling: seq<Node>, added: seq<Node>, k: nat)
    requires k < |added|
    ensures Tolerated(TOLERANCES, rolling + added[..k + 1])
      == Tolerated(TOLERANCES, rolling + added[..k])[added[k].name := 0.000000001]
    ensures added[..k + 1] == added[..k] + [added[k]]
  {
    var all := rolling + added[..k + 1];
    assert all[..|all| - 1] == rolling + added[..k] && all[|all| - 1] == added[k];
  }

  ghost predicate AddedUpTo(nodes: seq<Node>, rolling: seq<Node>, added: seq<Node>, k: nat, nodes': seq<Node>,
                            tolerances': map<string, real>) {
    k <= |added| && nodes' == nodes + added[..k] && tolerances' == Tolerated(TOLERANCES, rolling + added[..k])
  }

  lemma AddedNext(nodes: seq<Node>, rolling: seq<Node>, added: seq<Node>, k: nat, nodes': seq<Node>,
                  tolerances': map<string, real>)
    requires AddedUpTo(nodes, rolling, added, k, nodes', tolerances') && k < |added|
    ensures AddedUpTo(nodes, rolling, added, k + 1, nodes' + [added[k]], tolerances'[added[k].name := 0.000000001])
  {
    ToleratedNext(rolling, added, k);
    AppendAssociative(nodes, added[..k], [added[k]]);
  }

  /** The inner loop: the features of one window. */
  method AppendWindow(window: pos, aggregators: seq<Aggregator>, nodes: seq<Node>, tolerances: map<string, real>,
                      ghost rolling: seq<Node>)
    returns (nodes': seq<Node>, tolerances': map<string, real>)
    requires tolerances == Tolerated(TOLERANCES, rolling)
    ensures nodes' == nodes + NodesAt(window, aggregators)
    ensures tolerances' == Tolerated(TOLERANCES, rolling + NodesAt(window, aggregators))
  {
    nodes', tolerances' := nodes, tolerances;
    ghost var added := NodesAt(window, aggregators);
    assert rolling + added[..0] == rolling && nodes + added[..0] == nodes;
    for k := 0 to |aggregators|
      invariant AddedUpTo(nodes, rolling, added, k, nodes', tolerances')
    {
      var feature := FeatureName(aggregators[k], window);
      AddedNext(nodes, rolling, added, k, nodes', tolerances');
      nodes' := nodes' + [Node(feature, feature, ["price"], Rolling(window, aggregators[k]))];
      tolerances' := tolerances'[feature := 0.000000001];
    }
    TakeAll(added);
  }

  ghost predicate Appended(rolling: seq<Node>, nodes: seq<Node>, tolerances: map<string, real>) {
    nodes == [PRICE_NODE, RETURN_NODE] + rolling && tolerances == Tolerated(TOLERANCES, rolling)
  }

  lemma WindowNext(windows: seq<pos>, i: nat, aggregators: seq<Aggregator>)
    requires i < |windows|
    ensures RollingNodes(windows[..i + 1], aggregators)
      == RollingNodes(windows[..i], aggregators) + NodesAt(windows[i], aggregators)
  {
    TakeNext(windows, i);
  }

  method BuildLegacyFeatureSet(name: string, version: string, windows: seq<pos>, aggregators: seq<Aggregator>)
    returns (features: FeatureSet)
    ensures Distinct(features.windows) && forall w :: w in features.windows <==> w in windows
    ensures features == LegacyFeatureSet(name, version, features.windows, aggregators)
    ensures forall i, j :: 0 <= i < j < |features.windows| ==> features.windows[i] < features.windows[j]
    ensures features.name == name && features.version == version
    ensures LegacySpelled(features, aggregators)
  {
    var wins := SortedSet(windows);
    var nodes, tolerances := AppendWindows(wins, aggregators);
    var largest := if wins == [] then 0.0 else MaxWindow(wins) as real;
    nodes := nodes + [Node("window_max", "window_max", [], Constant(largest))];
    tolerances := tolerances["window_max" := 0.0];
    features := FeatureSet(name, version, wins, nodes, tolerances);
    LegacyIsSpelled(name, version, wins, aggregators);
  }

  /** `f"{agg}_{window}"`, spelled out. */
  ghost predicate NamesFeature(text: string, a: Aggregator, window: pos) {
    && |text| > 4 && text[3] == '_' && IsDecimal(text[4..], window)
    && match a
       case Sma => text[..3] == "sma"
       case Ema => text[..3] == "ema"
       case Max => text[..3] == "max"
       case Min => text[..3] == "min"
  }

  ghost predicate IsFeature(node: Node, windows: seq<pos>, aggregators: seq<Aggregator>) {
    && node.kind.Rolling? && node.kind.window in windows && node.kind.aggregator in aggregators
    && NamesFeature(node.name, node.kind.aggregator, node.kind.window)
    && node.output == node.name && node.dependencies == ["price"]
  }

  ghost predicate HasFeature(nodes: seq<Node>, window: pos, a: Aggregator) {
    exists node :: node in nodes && node.kind == Rolling(window, a)
  }

  /** The price, the return, a feature for each window and aggregator, and the largest window. */
  ghost predicate LegacySpelled(features: FeatureSet, aggregators: seq<Aggregator>) {
    var windows, nodes, n := features.windows, features.nodes, |features.nodes|;
    && 3 <= n
    && nodes[0] == Node("price", "price", [], Price)
    && nodes[1] == Node("ret_1", "ret_1", ["price"], Return)
    && nodes[n - 1] == Node("window_max", "window_max", [],
                            Constant(if windows == [] then 0.0 else windows[|windows| - 1] as real))
    && (forall i :: 2 <= i < n - 1 ==> IsFeature(nodes[i], windows, aggregators))
    && (forall w, a :: w in windows && a in aggregators ==> HasFeature(nodes, w, a))
    && features.tolerances.Keys == (set node | node in nodes :: node.name)
    && (forall i :: 0 <= i < n && nodes[i].name in features.tolerances ==>
          features.tolerances[nodes[i].name]
            == if i == 0 || i == n - 1 then 0.0 else if i == 1 then 0.000000000001 else 0.000000001)
  }

  lemma FeatureNamed(a: Aggregator, window: pos)
    ensures NamesFeature(FeatureName(a, window), a, window)
  {
    NatTextIsDecimal(window);
    var text := FeatureName(a, window);
    assert text[..3] == AggregatorName(a) && text[3] == '_' && text[4..] == NatText(window);
  }

  lemma {:induction false} RollingSpelled(windows: seq<pos>, aggregators: seq<Aggregator>)
    ensures forall node :: node in RollingNodes(windows, aggregators) ==> IsFeature(node, windows, aggregators)
    ensures forall w, a :: w in windows && a in aggregators ==> HasFeature(RollingNodes(windows, aggregators), w, a)
  {
    if windows != [] {
      var front, w := windows[..|windows| - 1], windows[|windows| - 1];
      RollingSpelled(front, aggregators);
      FrontLast(windows);
      var added := NodesAt(w, aggregators);
      forall node | node in added ensures IsFeature(node, windows, aggregators) {
        var k :| 0 <= k < |added| && added[k] == node;
        FeatureNamed(aggregators[k], w);
      }
      forall v, a | v in windows && a in aggregators ensures HasFeature(RollingNodes(windows, aggregators), v, a) {
        if v == w {
          var k :| 0 <= k < |aggregators| && aggregators[k] == a;
          assert added[k] in RollingNodes(windows, aggregators) && added[k].kind == Rolling(v, a);
        } else {
          assert HasFeature(RollingNodes(front, aggregators), v, a);
          var node :| node in RollingNodes(front, aggregators) && node.kind == Rolling(v, a);
          assert node in RollingNodes(windows, aggregators);
        }
      }
    }
  }

  lemma {:induction false} ToleratedAt(tolerances: map<string, real>, rolling: seq<Node>, name: string)
    ensures name in Tolerated(tolerances, rolling) ==>
      Tolerated(tolerances, rolling)[name]
        == if exists node :: node in rolling && node.name == name then 0.000000001
           else if name in tolerances then tolerances[name] else 0.0
  {
    if rolling != [] {
      FrontLast(rolling);
      ToleratedAt(tolerances, rolling[..|rolling| - 1], name);
      ToleratedHas(tolerances, rolling[..|rolling| - 1], name);
    }
  }

  lemma LegacyIsSpelled(name: string, version: string, windows: seq<pos>, aggregators: seq<Aggregator>)
    requires forall i, j :: 0 <= i < j < |windows| ==> windows[i] < windows[j]
    ensures LegacySpelled(LegacyFeatureSet(name, version, windows, aggregators), aggregators)
  {
    var rolling, nodes := RollingNodes(windows, aggregators), LegacyNodes(windows, aggregators);
    var n := |nodes|;
    RollingSpelled(windows, aggregators);
    forall i | 2 <= i < n - 1 ensures nodes[i] in rolling {
      assert nodes[i] == rolling[i - 2];
    }
    forall w, a | w in windows && a in aggregators ensures HasFeature(nodes, w, a) {
      assert HasFeature(rolling, w, a);
      var node :| node in rolling && node.kind == Rolling(w, a);
      assert node in nodes;
    }
    LargestIsLast(windows);
    LegacyTolerated(windows, aggregators);
  }

  lemma LargestIsLast(windows: seq<pos>)
    requires forall i, j :: 0 <= i < j < |windows| ==> windows[i] < windows[j]
    ensures windows != [] ==> MaxWindow(windows) == windows[|windows| - 1]
  {
    if windows != [] {
      var last := windows[|windows| - 1];
      assert last in windows;
      forall w | w in windows ensures w <= last {
        var k :| 0 <= k < |windows| && windows[k] == w;
        assert k < |windows| - 1 ==> windows[k] < last;
      }
    }
  }

  /** Exact for the price and the largest window, then for the return, then for the rolling features. */
  function ToleranceAt(i: nat, n: nat): real {
    if i == 0 || i == n - 1 then 0.0 else if i == 1 then 0.000000000001 else 0.000000001
  }

  lemma LegacyTolerated(windows: seq<pos>, aggregators: seq<Aggregator>)
    ensures var nodes := LegacyNodes(windows, aggregators);
            var t := Tolerated(TOLERANCES, RollingNodes(windows, aggregators))["window_max" := 0.0];
            && t.Keys == (set node | node in nodes :: node.name)
            && forall i :: 0 <= i < |nodes| && nodes[i].name in t ==>
                 t[nodes[i].name]
                   == if i == 0 || i == |nodes| - 1 then 0.0 else if i == 1 then 0.000000000001 else 0.000000001
  {
    LegacyToleratedKeys(windows, aggregators);
    var nodes := LegacyNodes(windows, aggregators);
    forall i | 0 <= i < |nodes| {
      LegacyToleratedAt(windows, aggregators, i);
    }
  }

  lemma RollingNames(windows: seq<pos>, aggregators: seq<Aggregator>)
    ensures forall node :: node in RollingNodes(windows, aggregators) ==>
      node.name != "price" && node.name != "ret_1" && node.name != "window_max"
  {
    AllRolling(windows, aggregators);
    forall node | node in RollingNodes(windows, aggregators)
      ensures node.name != "price" && node.name != "ret_1" && node.name != "window_max"
    {
      FeatureNameInjective(node.kind.aggregator, node.kind.window, node.kind.aggregator, node.kind.window);
    }
  }

  lemma LegacyToleratedKeys(windows: seq<pos>, aggregators: seq<Aggregator>)
    ensures Tolerated(TOLERANCES, RollingNodes(windows, aggregators))["window_max" := 0.0].Keys
         == (set node | node in LegacyNodes(windows, aggregators) :: node.name)
  {
    var rolling, nodes := RollingNodes(windows, aggregators), LegacyNodes(windows, aggregators);
    var t := Tolerated(TOLERANCES, rolling)["window_max" := 0.0];
    forall key ensures key in t <==> key in (set node | node in nodes :: node.name) {
      ToleratedHas(TOLERANCES, rolling, key);
      assert nodes[0] in nodes && nodes[1] in nodes && nodes[|nodes| - 1] in nodes;
      assert forall node :: node in nodes <==>
        node == nodes[0] || node == nodes[1] || node in rolling || node == nodes[|nodes| - 1];
    }
  }

  lemma LegacyToleratedAt(windows: seq<pos>, aggregators: seq<Aggregator>, i: nat)
    requires i < |LegacyNodes(windows, aggregators)|
    ensures var nodes := LegacyNodes(windows, aggregators);
            var t := Tolerated(TOLERANCES, RollingNodes(windows, aggregators))["window_max" := 0.0];
            nodes[i].name in t ==> t[nodes[i].name] == ToleranceAt(i, |nodes|)
  {
    var rolling, nodes := RollingNodes(windows, aggregators), LegacyNodes(windows, aggregators);
    RollingNames(windows, aggregators);
    ToleratedAt(TOLERANCES, rolling, nodes[i].name);
    if 2 <= i < |nodes| - 1 {
      assert nodes[i] == rolling[i - 2] && nodes[i] in rolling;
    }
  }

  /** The outer loop: the price, the return and the features of each window. */
  method AppendWindows(wins: seq<pos>, aggregators: seq<Aggregator>)
    returns (nodes: seq<Node>, tolerances: map<string, real>)
    ensures nodes == [PRICE_NODE, RETURN_NODE] + RollingNodes(wins, aggregators)
    ensures tolerances == Tolerated(TOLERANCES, RollingNodes(wins, aggregators))
  {
    nodes := [PRICE_NODE, RETURN_NODE];
    tolerances := TOLERANCES;
    for i := 0 to |wins|
      invariant Appended(RollingNodes(wins[..i], aggregators), nodes, tolerances)
    {
      WindowNext(wins, i, aggregators);
      AppendAssociative([PRICE_NODE, RETURN_NODE], RollingNodes(wins[..i], aggregators), NodesAt(wins[i], aggregators));
      nodes, tolerances := AppendWindow(wins[i], aggregators, nodes, tolerances, RollingNodes(wins[..i], aggregators));
    }
    TakeAll(wins);
  }
}
