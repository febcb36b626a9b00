/** The loops of the batch executor (`batch_executor.py`). */
module BatchExecutor {
  import opened Sequences
  import opened Sorting
  import opened FeatureModel
  import opened Nodes
  import opened State
  import opened ScopeRuntime
  import opened Isolation
  import opened TruncatedLog
  import opened Batch
  import opened Runtime

  datatype BatchError = CyclicDependency | UnsupportedKind

  datatype BatchResult = Vectors(vectors: seq<Vector>) | Failed(error: BatchError)

  /** The executor's dictionaries. */
  datatype Dictionaries = Dictionaries(
    history: map<Scope, seq<Event>>,
    previousPrice: map<Scope, real>,
    aggState: AggStates,
    nodeHistory: Histories)

  function EventsOf(d: Dictionaries, scope: Scope): seq<Event> {
    if scope in d.history then d.history[scope] else []
  }

  /** What the dictionaries hold for one scope. */
  function BatchView(d: Dictionaries, scope: Scope): BatchScope {
    BatchScope(PricesOf(EventsOf(d, scope)), Lookup(d.previousPrice, scope), Slice(d.aggState, scope),
      Slice(d.nodeHistory, scope))
  }

  method EvaluateNodes(x: Inputs, plan: seq<Node>, ema0: AggStates) returns (values: map<string, real>, ema: AggStates)
    requires AllSupported(plan)
    ensures Pass(values, ema) == BatchPlan(x, plan, Pass(map[], ema0))
  {
    values, ema := map[], ema0;
    for i := 0 to |plan|
      invariant BatchPlan(x, plan[i..], Pass(values, ema)) == BatchPlan(x, plan, Pass(map[], ema0))
    {
      assert plan[i..][1..] == plan[i + 1..];
      var computed := BatchCompute(x, plan[i], values, ema);
      if computed.value.Some? {
        values := values[plan[i].output := computed.value.value];
      }
      ema := computed.ema;
    }
  }

  /** The dictionaries after one more event whose nodes gave `pass`. */
  function After(d: Dictionaries, event: Event, pass: Pass): Dictionaries {
    var scope := event.scope;
    Dictionaries(
      d.history[scope := EventsOf(d, scope) + [event]],
      if event.price > 0.0 then d.previousPrice[scope := event.price] else d.previousPrice,
      Splice(d.aggState, scope, pass.ema),
      Splice(d.nodeHistory, scope, AppendHistory(Slice(d.nodeHistory, scope), scope, pass.values)))
  }

  lemma AfterView(cfg: Config, d: Dictionaries, event: Event, other: Scope)
    requires AllSupported(cfg.plan)
    ensures BatchView(After(d, event, BatchPass(cfg, BatchView(d, event.scope), event)), other)
         == if other == event.scope then BatchNext(cfg, BatchView(d, event.scope), event) else BatchView(d, other)
  {
    var b := BatchView(d, event.scope);
    var pass := BatchPass(cfg, b, event);
    BatchPlanKeys(BatchInputs(cfg, b, event), cfg.plan, Pass(map[], b.ema));
    AfterSlices(d, event, pass, other);
  }

  lemma AfterSlices(d: Dictionaries, event: Event, pass: Pass, other: Scope)
    requires KeysOf(pass.ema, event.scope)
    ensures var d' := After(d, event, pass);
            var own := other == event.scope;
            && PricesOf(EventsOf(d', other)) == PricesOf(EventsOf(d, other)) + (if own then [event.price] else [])
            && Slice(d'.aggState, other) == (if own then pass.ema else Slice(d.aggState, other))
            && Slice(d'.nodeHistory, other)
                 == if own then AppendHistory(Slice(d.nodeHistory, other), other, pass.values)
                   else Slice(d.nodeHistory, other)
  {
    PricesAfter(d, event, pass, other);
    SliceSplice(d.aggState, event.scope, pass.ema, other);
    SliceSplice(d.nodeHistory, event.scope, AppendHistory(Slice(d.nodeHistory, event.scope), event.scope, pass.values),
      other);
  }

  lemma PricesAfter(d: Dictionaries, event: Event, pass: Pass, other: Scope)
    ensures PricesOf(EventsOf(After(d, event, pass), other))
         == PricesOf(EventsOf(d, other)) + if other == event.scope then [event.price] else []
  {
    var events := EventsOf(d, other);
    assert EventsOf(After(d, event, pass), other) == events + if other == event.scope then [event] else [];
    PricesOfAppend(events, event);
  }

  lemma PricesOfAppend(events: seq<Event>, event: Event)
    ensures PricesOf(events + [event]) == PricesOf(events) + [event.price]
    ensures events + [] == events && PricesOf(events) + [] == PricesOf(events)
  {
  }

  lemma {:induction false} BatchPlanKeys(x: Inputs, plan: seq<Node>, pass: Pass)
    requires AllSupported(plan) && KeysOf(pass.ema, x.event.scope)
    ensures KeysOf(BatchPlan(x, plan, pass).ema, x.event.scope)
  {
    if plan != [] {
      BatchPlanKeys(x, plan[1..], BatchAfterNode(x, plan[0], pass));
    }
  }

  /** By symbol, then available time, then event time. */
  ghost predicate BatchOrdered(vectors: seq<Vector>) {
    forall i, j :: 0 <= i < j < |vectors| ==>
      if vectors[i].symbol != vectors[j].symbol then StringLe(vectors[i].symbol, vectors[j].symbol)
      else vectors[i].availableTs < vectors[j].availableTs
           || (vectors[i].availableTs == vectors[j].availableTs && vectors[i].ts <= vectors[j].ts)
  }

  lemma SortedOutputs(cfg: Config, events: seq<Event>, vectors: seq<Vector>)
    requires AllSupported(cfg.plan) && |vectors| == |events|
    requires forall k :: 0 <= k < |vectors| ==> vectors[k] == BatchOutput(cfg, Sort(events, SymbolEventLe), k)
    ensures BatchOrdered(vectors)
  {
    var sorted := Sort(events, SymbolEventLe);
    SymbolEventOrder();
    SortSorted(events, SymbolEventLe);
    forall k | 0 <= k < |vectors| ensures StampedBy(vectors[k], sorted[k]) {
      OutputStamped(cfg, sorted, k);
    }
    StampedOrdered(vectors, sorted);
  }

  predicate StampedBy(v: Vector, event: Event) {
    v.symbol == event.symbol && v.ts == event.eventTs && v.availableTs == event.availableTs
  }

  lemma OutputStamped(cfg: Config, events: seq<Event>, k: nat)
    requires AllSupported(cfg.plan) && k < |events|
    ensures StampedBy(BatchOutput(cfg, events, k), events[k])
  {
  }

  lemma StampedOrdered(vectors: seq<Vector>, sorted: seq<Event>)
    requires |vectors| == |sorted| && SortedBy(sorted, SymbolEventLe)
    requires forall k :: 0 <= k < |vectors| ==> StampedBy(vectors[k], sorted[k])
    ensures BatchOrdered(vectors)
  {
    forall i, j | 0 <= i < j < |vectors| ensures SymbolEventLe(sorted[i], sorted[j]) {
    }
  }

  lemma SupportedMembers(plan: seq<Node>, nodes: seq<Node>)
    requires forall node :: node in plan <==> node in nodes
    ensures AllSupported(plan) <==> forall node :: node in nodes ==> Supported(node.kind)
  {
    if AllSupported(plan) {
      forall node | node in nodes ensures Supported(node.kind) {
        var i :| 0 <= i < |plan| && plan[i] == node;
      }
    }
    if forall node :: node in nodes ==> Supported(node.kind) {
      forall i | 0 <= i < |plan| ensures Supported(plan[i].kind) {
        assert plan[i] in plan;
      }
    }
  }

  lemma SupportedNodes(num: Numerics, features: FeatureSet)
    requires Dag.Plan(features.nodes).Some?
    ensures AllSupported(ConfigOf(num, features).plan) <==>
      forall node :: node in features.nodes ==> !node.kind.Difference? && !node.kind.Ratio? && !node.kind.Clip?
  {
    var plan := Dag.Plan(features.nodes).value;
    Dag.PlanCorrect(features.nodes);
    SameMembers(plan, features.nodes);
    SupportedMembers(plan, features.nodes);
  }

  method Execute(num: Numerics, events: seq<Event>, features: FeatureSet) returns (result: BatchResult)
    ensures Dag.Plan(features.nodes).None? ==> result == Failed(CyclicDependency)
    ensures Dag.Plan(features.nodes).Some? ==>
      var cfg := ConfigOf(num, features);
      var sorted := Sort(events, SymbolEventLe);
      if AllSupported(cfg.plan) || events == []
      then result.Vectors? && |result.vectors| == |events|
           && forall k :: 0 <= k < |sorted| ==> result.vectors[k] == BatchOutput(cfg, sorted, k)
      else result == Failed(UnsupportedKind)
    ensures result == Failed(UnsupportedKind) <==>
      && Dag.Plan(features.nodes).Some? && events != []
      && exists node :: node in features.nodes && (node.kind.Difference? || node.kind.Ratio? || node.kind.Clip?)
    ensures result.Vectors? ==> BatchOrdered(result.vectors)
  {
    if Dag.Plan(features.nodes).Some? {
      SupportedNodes(num, features);
    }
    var plan := DagSort.TopologicalSort(features.nodes);
    if plan.None? {
      return Failed(CyclicDependency);
    }
    if events == [] {
      return Vectors([]);
    }
    if i :| 0 <= i < |plan.value| && !Supported(plan.value[i].kind) {
      return Failed(UnsupportedKind);
    }
    var cfg := Config(num, features.name, features.version, EffectiveWindow(features.windows), plan.value);
    var vectors := ExecuteSorted(cfg, Sort(events, SymbolEventLe));
    SortedOutputs(cfg, events, vectors);
    result := Vectors(vectors);
  }

  method ExecuteSorted(cfg: Config, sorted: seq<Event>) returns (outputs: seq<Vector>)
    requires AllSupported(cfg.plan)
    ensures |outputs| == |sorted|
    ensures forall k :: 0 <= k < |sorted| ==> outputs[k] == BatchOutput(cfg, sorted, k)
  {
    var d := Dictionaries(map[], map[], map[], map[]);
    outputs := [];
    EmptyHolds(cfg);
    assert sorted[..0] == [];
    for i := 0 to |sorted|
      invariant |outputs| == i && Holds(cfg, d, sorted[..i]) && Emits(cfg, sorted, outputs)
    {
      ghost var before := d;
      var vector;
      d, vector := ExecuteEvent(cfg, d, sorted[i]);
      EventDone(cfg, before, sorted, outputs, d, vector);
      outputs := outputs + [vector];
    }
    TakeAll(sorted);
  }

  /** The vectors so far are those of the first events. */
  ghost predicate Emits(cfg: Config, sorted: seq<Event>, outputs: seq<Vector>)
    requires AllSupported(cfg.plan)
  {
    |outputs| <= |sorted| && forall k :: 0 <= k < |outputs| ==> outputs[k] == BatchOutput(cfg, sorted, k)
  }

  lemma EventDone(cfg: Config, d: Dictionaries, sorted: seq<Event>, outputs: seq<Vector>, d': Dictionaries,
                  vector: Vector)
    requires AllSupported(cfg.plan) && |outputs| < |sorted|
    requires Holds(cfg, d, sorted[..|outputs|]) && Emits(cfg, sorted, outputs)
    requires var event := sorted[|outputs|];
             d' == After(d, event, BatchPass(cfg, BatchView(d, event.scope), event))
             && vector == BatchVector(cfg, BatchView(d, event.scope), event)
    ensures Holds(cfg, d', sorted[..|outputs| + 1]) && Emits(cfg, sorted, outputs + [vector])
  {
    HoldsNext(cfg, d, sorted, |outputs|);
    EmitsNext(cfg, d, sorted, outputs, vector);
  }

  lemma EmitsNext(cfg: Config, d: Dictionaries, sorted: seq<Event>, outputs: seq<Vector>, vector: Vector)
    requires AllSupported(cfg.plan) && |outputs| < |sorted|
    requires Holds(cfg, d, sorted[..|outputs|]) && Emits(cfg, sorted, outputs)
    requires vector == BatchVector(cfg, BatchView(d, sorted[|outputs|].scope), sorted[|outputs|])
    ensures Emits(cfg, sorted, outputs + [vector])
  {
    assert HoldsFor(cfg, d, sorted[..|outputs|], sorted[|outputs|].scope);
    assert vector == BatchOutput(cfg, sorted, |outputs|);
  }

  /** The body of the loop over events. */
  method ExecuteEvent(cfg: Config, d: Dictionaries, event: Event) returns (d': Dictionaries, vector: Vector)
    requires AllSupported(cfg.plan)
    ensures d' == After(d, event, BatchPass(cfg, BatchView(d, event.scope), event))
    ensures vector == BatchVector(cfg, BatchView(d, event.scope), event)
  {
    var scope := event.scope;
    var events := EventsOf(d, scope) + [event];
    var prices := PricesOf(events);
    assert prices == PricesOf(EventsOf(d, scope)) + [event.price];
    var x := Inputs(cfg.num, event, prices, Lookup(d.previousPrice, scope), Slice(d.nodeHistory, scope));
    var values, ema := EvaluateNodes(x, cfg.plan, Slice(d.aggState, scope));
    var histories := Splice(d.nodeHistory, scope, AppendHistory(Slice(d.nodeHistory, scope), scope, values));
    var previous := if event.price > 0.0 then d.previousPrice[scope := event.price] else d.previousPrice;
    d' := Dictionaries(d.history[scope := events], previous, Splice(d.aggState, scope, ema), histories);
    vector := VectorFor(cfg, event, values);
  }

  ghost predicate HoldsFor(cfg: Config, d: Dictionaries, events: seq<Event>, scope: Scope)
    requires AllSupported(cfg.plan)
  {
    BatchView(d, scope) == BatchAll(cfg, Only(scope, events))
  }

  /** Each scope's entries are those of its own events. */
  ghost predicate Holds(cfg: Config, d: Dictionaries, events: seq<Event>)
    requires AllSupported(cfg.plan)
  {
    forall scope :: HoldsFor(cfg, d, events, scope)
  }

  lemma EmptyHolds(cfg: Config)
    requires AllSupported(cfg.plan)
    ensures Holds(cfg, Dictionaries(map[], map[], map[], map[]), [])
  {
    var d := Dictionaries(map[], map[], map[], map[]);
    forall scope ensures HoldsFor(cfg, d, [], scope) {
      assert Slice(d.aggState, scope) == map[] && Slice(d.nodeHistory, scope) == map[];
    }
  }

  lemma HoldsNext(cfg: Config, d: Dictionaries, sorted: seq<Event>, i: nat)
    requires AllSupported(cfg.plan) && i < |sorted| && Holds(cfg, d, sorted[..i])
    ensures Holds(cfg, After(d, sorted[i], BatchPass(cfg, BatchView(d, sorted[i].scope), sorted[i])), sorted[..i + 1])
    ensures BatchVector(cfg, BatchView(d, sorted[i].scope), sorted[i]) == BatchOutput(cfg, sorted, i)
  {
    assert HoldsFor(cfg, d, sorted[..i], sorted[i].scope);
    var d' := After(d, sorted[i], BatchPass(cfg, BatchView(d, sorted[i].scope), sorted[i]));
    var done := sorted[..i + 1];
    forall scope ensures HoldsFor(cfg, d', done, scope) {
      assert HoldsFor(cfg, d, sorted[..i], scope);
      AfterView(cfg, d, sorted[i], scope);
      BatchAllNext(cfg, sorted, i, scope);
    }
  }

  lemma BatchAllNext(cfg: Config, sorted: seq<Event>, i: nat, scope: Scope)
    requires AllSupported(cfg.plan) && i < |sorted|
    ensures BatchAll(cfg, Only(scope, sorted[..i + 1]))
         == if scope == sorted[i].scope then BatchNext(cfg, BatchAll(cfg, Only(scope, sorted[..i])), sorted[i])
            else BatchAll(cfg, Only(scope, sorted[..i]))
  {
    var all, front := Only(scope, sorted[..i + 1]), Only(scope, sorted[..i]);
    OnlyLast(scope, sorted[..i + 1]);
    TakeNext(sorted, i);
    if scope == sorted[i].scope {
      assert all == front + [sorted[i]];
      assert all[..|all| - 1] == front && all[|all| - 1] == sorted[i];
    } else {
      assert all == front;
    }
  }
}
