/** A scope under policy "reject": which events it takes, and which EMA states they leave (`runtime.py`). */
module RejectPolicy {
  import opened Sequences
  import opened FeatureModel
  import opened Nodes
  import opened State
  import opened ScopeRuntime
  import opened Isolation
  import opened LateEvents
  import opened PlanOrder
  import opened TruncatedLog
  import opened Snapshot

  /** Of the events of one scope, those not older than the one accepted before. */
  function Accepted(events: seq<Event>): (r: seq<Event>)
    ensures |r| <= |events|
  {
    if events == [] then []
    else
      var earlier, last := Accepted(events[..|events| - 1]), events[|events| - 1];
      if earlier != [] && last.availableTs < earlier[|earlier| - 1].availableTs then earlier else earlier + [last]
  }

  lemma {:induction false} AcceptedOwn(events: seq<Event>, scope: Scope)
    requires AllOf(events, scope)
    ensures AllOf(Accepted(events), scope)
  {
    if events != [] {
      AcceptedOwn(events[..|events| - 1], scope);
    }
  }

  lemma TakesOrRejects(cfg: Config, rows: seq<Event>, event: Event)
    ensures Late(TakenAll(cfg, EMPTY, rows), event)
       <==> rows != [] && event.availableTs < rows[|rows| - 1].availableTs
  {
  }

  /** Late or not, in whatever order: a scope holds what its accepted events, taken in turn, leave. */
  lemma {:induction false} RejectViews(cfg: Config, e: Engine, events: seq<Event>, scope: Scope)
    requires Sound(cfg, e) && ViewOf(e.tables, scope) == EMPTY
    ensures ViewOf(Run(cfg, Reject, e, events).tables, scope) == TakenAll(cfg, EMPTY, Accepted(Only(scope, events)))
  {
    if events != [] {
      var front, last := events[..|events| - 1], events[|events| - 1];
      RejectViews(cfg, e, front, scope);
      RunSound(cfg, Reject, e, front);
      StepView(cfg, Reject, Run(cfg, Reject, e, front), last, scope);
      OnlyLast(scope, events);
      if last.scope == scope {
        var own := Only(scope, front);
        assert (own + [last])[..|own|] == own;
        TakesOrRejects(cfg, Accepted(own), last);
        TakenNext(cfg, Accepted(own), last);
      } else {
        assert Only(scope, events) == Only(scope, front);
      }
    }
  }

  lemma {:induction false} PassKeys(x: Inputs, nodes: seq<Node>, pass: Pass, key: Key<AggItem>)
    ensures key in RunPlan(x, nodes, pass).ema <==> key in pass.ema || HasEma(x, nodes, key)
  {
    if nodes != [] {
      PassKeys(x, nodes[1..], AfterNode(x, nodes[0], pass), key);
      NodeKeys(x, nodes[0], pass, key);
      HasEmaFirst(x, nodes, key);
    }
  }

  lemma NodeKeys(x: Inputs, node: Node, pass: Pass, key: Key<AggItem>)
    ensures key in AfterNode(x, node, pass).ema
       <==> key in pass.ema || (IsEma(x.event.scope, node, key) && key.item.window <= |x.prices|)
  {
  }

  lemma HasEmaFirst(x: Inputs, nodes: seq<Node>, key: Key<AggItem>)
    requires nodes != []
    ensures HasEma(x, nodes, key)
       <==> HasEma(x, nodes[1..], key) || (IsEma(x.event.scope, nodes[0], key) && key.item.window <= |x.prices|)
  {
    if HasEma(x, nodes[1..], key) {
      var i :| 0 <= i < |nodes| - 1 && IsEma(x.event.scope, nodes[1..][i], key) && key.item.window <= |x.prices|;
      assert nodes[1..][i] == nodes[i + 1];
    }
    if HasEma(x, nodes, key) {
      var i :| 0 <= i < |nodes| && IsEma(x.event.scope, nodes[i], key) && key.item.window <= |x.prices|;
      assert i > 0 ==> nodes[1..][i - 1] == nodes[i];
    }
  }

  ghost predicate Planned(plan: seq<Node>, scope: Scope, key: Key<AggItem>) {
    exists i :: 0 <= i < |plan| && IsEma(scope, plan[i], key)
  }

  /** An EMA state exists from the event on that fills its window, if the price queue can hold that many. */
  lemma {:induction false} TakenKeys(cfg: Config, events: seq<Event>, scope: Scope, key: Key<AggItem>)
    requires AllOf(events, scope)
    ensures key in TakenAll(cfg, EMPTY, events).ema
       <==> (&& events != [] && Planned(cfg.plan, scope, key)
             && key.item.window <= cfg.window && key.item.window <= |events|)
  {
    if events != [] {
      var front, last := events[..|events| - 1], events[|events| - 1];
      TakenKeys(cfg, front, scope, key);
      TakenAllPrices(cfg, front);
      var s := Recorded(cfg, TakenAll(cfg, EMPTY, front), last);
      PassKeys(InputsFor(cfg, s, last), cfg.plan, Pass(map[], s.ema), key);
    }
  }

  /** An EMA is planned that the price queue can hold, and a scope with a bar accepts enough events for it. */
  ghost predicate BarredEma(nodes: seq<Node>, window: pos, events: seq<Event>) {
    exists node, event :: node in nodes && event in events && FillsEma(node, window, event.scope, events)
  }

  predicate FillsEma(node: Node, window: pos, scope: Scope, events: seq<Event>) {
    && node.kind.Rolling? && node.kind.aggregator.Ema? && '|' in scope
    && node.kind.window <= window && node.kind.window <= |Accepted(Only(scope, events))|
  }

  /** Exactly then is an EMA kept for a scope with a bar. */
  lemma BarredEmaKept(cfg: Config, e: Engine, events: seq<Event>)
    requires Sound(cfg, e) && forall scope :: ViewOf(e.tables, scope) == EMPTY
    ensures PlainAgg(Run(cfg, Reject, e, events).tables) <==> !BarredEma(cfg.plan, cfg.window, events)
  {
    var t := Run(cfg, Reject, e, events).tables;
    if BarredEma(cfg.plan, cfg.window, events) {
      var node, event :| node in cfg.plan && event in events && FillsEma(node, cfg.window, event.scope, events);
      FilledIsKept(cfg, e, events, node, event.scope);
    }
    if key :| key in t.agg && '|' in key.scope {
      var node := KeptIsFilled(cfg, e, events, key);
      var event := SomeEvent(events, key.scope);
      assert FillsEma(node, cfg.window, event.scope, events);
    }
  }

  lemma FilledIsKept(cfg: Config, e: Engine, events: seq<Event>, node: Node, scope: Scope)
    requires Sound(cfg, e) && ViewOf(e.tables, scope) == EMPTY
    requires node in cfg.plan && FillsEma(node, cfg.window, scope, events)
    ensures EmaKey(scope, node.kind.window) in Run(cfg, Reject, e, events).tables.agg
  {
    var i :| 0 <= i < |cfg.plan| && cfg.plan[i] == node;
    assert IsEma(scope, cfg.plan[i], EmaKey(scope, node.kind.window));
    ScopeKeys(cfg, e, events, scope, EmaKey(scope, node.kind.window));
  }

  lemma KeptIsFilled(cfg: Config, e: Engine, events: seq<Event>, key: Key<AggItem>) returns (node: Node)
    requires Sound(cfg, e) && ViewOf(e.tables, key.scope) == EMPTY
    requires key in Run(cfg, Reject, e, events).tables.agg && '|' in key.scope
    ensures node in cfg.plan && FillsEma(node, cfg.window, key.scope, events)
  {
    ScopeKeys(cfg, e, events, key.scope, key);
    node := PlannedNode(cfg.plan, key.scope, key);
  }

  lemma PlannedNode(plan: seq<Node>, scope: Scope, key: Key<AggItem>) returns (node: Node)
    requires Planned(plan, scope, key)
    ensures node in plan && IsEma(scope, node, key)
  {
    var i :| 0 <= i < |plan| && IsEma(scope, plan[i], key);
    node := plan[i];
  }

  lemma SomeEvent(events: seq<Event>, scope: Scope) returns (event: Event)
    requires Only(scope, events) != []
    ensures event in events && event.scope == scope
  {
    event := Only(scope, events)[0];
    FilterMembers(events, (x: Event) => x.scope == scope, event);
  }

  lemma ScopeKeys(cfg: Config, e: Engine, events: seq<Event>, scope: Scope, key: Key<AggItem>)
    requires Sound(cfg, e) && ViewOf(e.tables, scope) == EMPTY && key.scope == scope
    ensures var own := Accepted(Only(scope, events));
            key in Run(cfg, Reject, e, events).tables.agg <==>
              && own != [] && Planned(cfg.plan, scope, key)
              && key.item.window <= cfg.window && key.item.window <= |own|
  {
    RejectViews(cfg, e, events, scope);
    OnlyAllOf(scope, events);
    AcceptedOwn(Only(scope, events), scope);
    TakenKeys(cfg, Accepted(Only(scope, events)), scope, key);
    var t := Run(cfg, Reject, e, events).tables;
    assert key in t.agg <==> key in ViewOf(t, scope).ema;
  }
}
