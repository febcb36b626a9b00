/** Which of the possible plan orders is run does not matter. */
module PlanOrder {
  import opened Sequences
  import opened FeatureModel
  import opened Nodes

  /** The emitted values a node looks up while it computes. */
  function Reads(kind: Kind): set<string> {
    match kind
    case ZScore(source, _) => {source}
    case Difference(left, right) => {left, right}
    case Ratio(top, bottom, _) => {top, bottom}
    case Clip(source, _, _) => {source}
    case _ => {}
  }

  predicate IsEma(scope: Scope, node: Node, key: Key<AggItem>) {
    node.kind.Rolling? && node.kind.aggregator.Ema? && key == EmaKey(scope, node.kind.window)
  }

  predicate DistinctOutputs(nodes: seq<Node>) {
    forall i, j :: 0 <= i < j < |nodes| ==> nodes[i].output != nodes[j].output
  }

  predicate DistinctEmaWindows(nodes: seq<Node>) {
    forall i, j :: 0 <= i < j < |nodes| && nodes[i].kind.Rolling? && nodes[j].kind.Rolling?
      && nodes[i].kind.aggregator.Ema? && nodes[j].kind.aggregator.Ema?
      ==> nodes[i].kind.window != nodes[j].kind.window
  }

  /** Whatever a node reads is emitted before it or not at all. */
  predicate ReadsEarlier(nodes: seq<Node>) {
    forall i, j :: 0 <= i < |nodes| && 0 <= j < |nodes| && nodes[j].output in Reads(nodes[i].kind) ==> j < i
  }

  predicate Orderable(nodes: seq<Node>) {
    DistinctOutputs(nodes) && DistinctEmaWindows(nodes) && ReadsEarlier(nodes)
  }

  predicate Named(values: map<string, real>, name: string) {
    name in values
  }

  /** `values` explains itself: each node, shown all of `values`, computes its own entry. */
  ghost predicate Settled(x: Inputs, nodes: seq<Node>, ema: AggStates, values: map<string, real>) {
    && (forall name :: Named(values, name) ==> exists i :: 0 <= i < |nodes| && nodes[i].output == name)
    && (forall i :: 0 <= i < |nodes| ==>
          Lookup(values, nodes[i].output) == Compute(x, nodes[i], values, ema).value)
  }

  predicate HasEma(x: Inputs, nodes: seq<Node>, key: Key<AggItem>) {
    exists i :: 0 <= i < |nodes| && IsEma(x.event.scope, nodes[i], key) && key.item.window <= |x.prices|
  }

  /** The state under `key` after an event, whatever the order of the nodes. */
  ghost predicate EmaSettled(x: Inputs, nodes: seq<Node>, before: AggStates, after: AggStates) {
    forall key :: Lookup(after, key) ==
      if HasEma(x, nodes, key)
      then Some(EmaStep(key.item.window, Lookup(before, key), x.prices[|x.prices| - 1]))
      else Lookup(before, key)
  }

  lemma ComputeReads(x: Inputs, node: Node, a: map<string, real>, b: map<string, real>,
                     ema: AggStates, ema': AggStates)
    requires forall name :: name in Reads(node.kind) ==> Lookup(a, name) == Lookup(b, name)
    requires forall key :: IsEma(x.event.scope, node, key) ==> Lookup(ema, key) == Lookup(ema', key)
    ensures Compute(x, node, a, ema).value == Compute(x, node, b, ema').value
  {
    match node.kind {
      case Rolling(_, _) => RollingReads(x, node, ema, ema');
      case ZScore(source, _) => assert source in Reads(node.kind);
      case Difference(left, right) => assert left in Reads(node.kind) && right in Reads(node.kind);
      case Ratio(top, bottom, _) => assert top in Reads(node.kind) && bottom in Reads(node.kind);
      case Clip(source, _, _) => assert source in Reads(node.kind);
      case _ =>
    }
  }

  lemma RollingReads(x: Inputs, node: Node, ema: AggStates, ema': AggStates)
    requires node.kind.Rolling?
    requires forall key :: IsEma(x.event.scope, node, key) ==> Lookup(ema, key) == Lookup(ema', key)
    ensures forall a, b :: Compute(x, node, a, ema).value == Compute(x, node, b, ema').value
  {
    var key := EmaKey(x.event.scope, node.kind.window);
    if node.kind.aggregator.Ema? {
      assert IsEma(x.event.scope, node, key);
    }
    RollingSame(x, node.kind.window, node.kind.aggregator, ema, ema');
  }

  lemma RollingSame(x: Inputs, window: pos, aggregator: Aggregator, ema: AggStates, ema': AggStates)
    requires aggregator.Ema?
      ==> Lookup(ema, EmaKey(x.event.scope, window)) == Lookup(ema', EmaKey(x.event.scope, window))
    ensures RollingOutcome(x, window, aggregator, ema).value == RollingOutcome(x, window, aggregator, ema').value
  {
  }

  lemma {:induction false} PlanSettles(x: Inputs, nodes: seq<Node>, ema: AggStates)
    requires Orderable(nodes)
    ensures var pass := RunPlan(x, nodes, Pass(map[], ema));
            Settled(x, nodes, ema, pass.values) && EmaSettled(x, nodes, ema, pass.ema)
  {
    if nodes != [] {
      var k := |nodes| - 1;
      var front := nodes[..k];
      PlanSettles(x, front, ema);
      RunPlanAppend(x, front, nodes[k..], Pass(map[], ema));
      assert nodes == front + nodes[k..];
      var before := RunPlan(x, front, Pass(map[], ema));
      var after := AfterNode(x, nodes[k], before);
      assert RunPlan(x, nodes, Pass(map[], ema)) == after by {
        assert nodes[k..][1..] == [];
      }
      LastNodeSettles(x, nodes, ema, before, after);
    }
  }

  lemma LastNodeSettles(x: Inputs, nodes: seq<Node>, ema: AggStates, before: Pass, after: Pass)
    requires Orderable(nodes) && nodes != []
    requires Settled(x, nodes[..|nodes| - 1], ema, before.values)
    requires EmaSettled(x, nodes[..|nodes| - 1], ema, before.ema)
    requires after == AfterNode(x, nodes[|nodes| - 1], before)
    ensures Settled(x, nodes, ema, after.values) && EmaSettled(x, nodes, ema, after.ema)
  {
    var k := |nodes| - 1;
    var front := nodes[..k];
    forall key | IsEma(x.event.scope, nodes[k], key) ensures Lookup(before.ema, key) == Lookup(ema, key) {
      assert forall i :: 0 <= i < |front| ==> front[i] == nodes[i] && !IsEma(x.event.scope, nodes[i], key);
    }
    assert !Named(before.values, nodes[k].output);
    forall i | 0 <= i < |nodes|
      ensures Lookup(after.values, nodes[i].output) == Compute(x, nodes[i], after.values, ema).value
    {
      ComputeReads(x, nodes[i], before.values, after.values, if i == k then before.ema else ema, ema);
      if i < k {
        assert front[i] == nodes[i];
      }
    }
    LastNodeValues(nodes, front, before, after);
    LastNodeEma(x, nodes, ema, before, after);
  }

  lemma LastNodeValues(nodes: seq<Node>, front: seq<Node>, before: Pass, after: Pass)
    requires nodes != [] && front == nodes[..|nodes| - 1]
    requires forall name :: Named(before.values, name) ==> exists i :: 0 <= i < |front| && front[i].output == name
    requires after.values.Keys <= before.values.Keys + {nodes[|nodes| - 1].output}
    ensures forall name :: Named(after.values, name) ==> exists i :: 0 <= i < |nodes| && nodes[i].output == name
  {
    forall name | Named(after.values, name) ensures exists i :: 0 <= i < |nodes| && nodes[i].output == name {
      if Named(before.values, name) {
        var i :| 0 <= i < |front| && front[i].output == name;
        assert nodes[i].output == name;
      } else {
        assert nodes[|nodes| - 1].output == name;
      }
    }
  }

  lemma HasEmaLast(x: Inputs, nodes: seq<Node>, key: Key<AggItem>)
    requires nodes != []
    ensures HasEma(x, nodes, key) <==>
              HasEma(x, nodes[..|nodes| - 1], key)
              || (IsEma(x.event.scope, nodes[|nodes| - 1], key) && key.item.window <= |x.prices|)
  {
    var front := nodes[..|nodes| - 1];
    if i :| 0 <= i < |front| && IsEma(x.event.scope, front[i], key) && key.item.window <= |x.prices| {
      assert IsEma(x.event.scope, nodes[i], key);
    }
    if i :| 0 <= i < |front| && IsEma(x.event.scope, nodes[i], key) && key.item.window <= |x.prices| {
      assert IsEma(x.event.scope, front[i], key);
    }
  }

  lemma LastNodeEma(x: Inputs, nodes: seq<Node>, ema: AggStates, before: Pass, after: Pass)
    requires nodes != []
    requires EmaSettled(x, nodes[..|nodes| - 1], ema, before.ema)
    requires forall key :: IsEma(x.event.scope, nodes[|nodes| - 1], key) ==> Lookup(before.ema, key) == Lookup(ema, key)
    requires after == AfterNode(x, nodes[|nodes| - 1], before)
    ensures EmaSettled(x, nodes, ema, after.ema)
  {
    forall key
      ensures Lookup(after.ema, key) ==
        if HasEma(x, nodes, key)
        then Some(EmaStep(key.item.window, Lookup(ema, key), x.prices[|x.prices| - 1]))
        else Lookup(ema, key)
    {
      HasEmaLast(x, nodes, key);
      LastNodeEmaAt(x, nodes[|nodes| - 1], before, key);
    }
  }

  lemma LastNodeEmaAt(x: Inputs, node: Node, before: Pass, key: Key<AggItem>)
    ensures Lookup(AfterNode(x, node, before).ema, key) ==
      if IsEma(x.event.scope, node, key) && key.item.window <= |x.prices|
      then Some(EmaStep(key.item.window, Lookup(before.ema, key), x.prices[|x.prices| - 1]))
      else Lookup(before.ema, key)
  {
  }

  /** A system of nodes has at most one self-explaining assignment of values. */
  lemma {:induction false} SettledUnique(x: Inputs, nodes: seq<Node>, ema: AggStates,
                                         a: map<string, real>, b: map<string, real>, n: nat)
    requires ReadsEarlier(nodes) && n <= |nodes|
    requires Settled(x, nodes, ema, a) && Settled(x, nodes, ema, b)
    ensures forall i :: 0 <= i < n ==> Lookup(a, nodes[i].output) == Lookup(b, nodes[i].output)
  {
    if n != 0 {
      SettledUnique(x, nodes, ema, a, b, n - 1);
      NextAgrees(x, nodes, ema, a, b, n - 1);
    }
  }

  lemma NextAgrees(x: Inputs, nodes: seq<Node>, ema: AggStates,
                   a: map<string, real>, b: map<string, real>, n: nat)
    requires ReadsEarlier(nodes) && n < |nodes|
    requires Settled(x, nodes, ema, a) && Settled(x, nodes, ema, b)
    requires forall i :: 0 <= i < n ==> Lookup(a, nodes[i].output) == Lookup(b, nodes[i].output)
    ensures Lookup(a, nodes[n].output) == Lookup(b, nodes[n].output)
  {
    ReadsAgree(x, nodes, ema, a, b, n);
    ComputeReads(x, nodes[n], a, b, ema, ema);
  }

  lemma ReadsAgree(x: Inputs, nodes: seq<Node>, ema: AggStates,
                   a: map<string, real>, b: map<string, real>, n: nat)
    requires ReadsEarlier(nodes) && n < |nodes|
    requires Settled(x, nodes, ema, a) && Settled(x, nodes, ema, b)
    requires forall i :: 0 <= i < n ==> Lookup(a, nodes[i].output) == Lookup(b, nodes[i].output)
    ensures forall name :: name in Reads(nodes[n].kind) ==> Lookup(a, name) == Lookup(b, name)
  {
    forall name | name in Reads(nodes[n].kind) ensures Lookup(a, name) == Lookup(b, name) {
      if Named(a, name) || Named(b, name) {
        var j :| 0 <= j < |nodes| && nodes[j].output == name;
        assert j < n;
      }
    }
  }

  lemma LookupExtensional<K, V>(a: map<K, V>, b: map<K, V>)
    requires forall k :: Lookup(a, k) == Lookup(b, k)
    ensures a == b
  {
    forall k ensures (k in a <==> k in b) && (k in a ==> a[k] == b[k]) {
      assert Lookup(a, k) == Lookup(b, k);
    }
  }

  /**
    * Two arrangements of the same nodes that both put what is read before its readers emit the
    * same values and leave the same EMA states.
    */
  lemma PlanOrderIrrelevant(x: Inputs, p: seq<Node>, q: seq<Node>, ema: AggStates)
    requires Orderable(p) && Orderable(q)
    requires multiset(p) == multiset(q)
    ensures RunPlan(x, p, Pass(map[], ema)) == RunPlan(x, q, Pass(map[], ema))
  {
    var a, b := RunPlan(x, p, Pass(map[], ema)), RunPlan(x, q, Pass(map[], ema));
    PlanSettles(x, p, ema);
    PlanSettles(x, q, ema);
    forall node ensures node in p <==> node in q {
      assert node in multiset(p) <==> node in multiset(q);
    }
    SettledPermutation(x, q, p, ema, b);
    SettledUnique(x, p, ema, a.values, b.values, |p|);
    forall name ensures Lookup(a.values, name) == Lookup(b.values, name) {
      if Named(a.values, name) || Named(b.values, name) {
        var i :| 0 <= i < |p| && p[i].output == name;
      }
    }
    LookupExtensional(a.values, b.values);
    forall key ensures Lookup(a.ema, key) == Lookup(b.ema, key) {
    }
    LookupExtensional(a.ema, b.ema);
  }

  lemma SettledPermutation(x: Inputs, p: seq<Node>, q: seq<Node>, ema: AggStates, pass: Pass)
    requires forall node :: node in p <==> node in q
    requires Settled(x, p, ema, pass.values) && EmaSettled(x, p, ema, pass.ema)
    ensures Settled(x, q, ema, pass.values) && EmaSettled(x, q, ema, pass.ema)
  {
    forall i | 0 <= i < |q|
      ensures Lookup(pass.values, q[i].output) == Compute(x, q[i], pass.values, ema).value
    {
      assert q[i] in q && q[i] in p;
      var j :| 0 <= j < |p| && p[j] == q[i];
    }
    forall name | Named(pass.values, name) ensures exists i :: 0 <= i < |q| && q[i].output == name {
      var j :| 0 <= j < |p| && p[j].output == name;
      assert p[j] in p && p[j] in q;
      var i :| 0 <= i < |q| && q[i] == p[j];
    }
    forall key ensures HasEma(x, p, key) <==> HasEma(x, q, key) {
      if i :| 0 <= i < |p| && IsEma(x.event.scope, p[i], key) {
        assert p[i] in p && p[i] in q;
        var j :| 0 <= j < |q| && q[j] == p[i];
      }
      if j :| 0 <= j < |q| && IsEma(x.event.scope, q[j], key) {
        assert q[j] in q && q[j] in p;
        var i :| 0 <= i < |p| && p[i] == q[j];
      }
    }
  }
}
