/** `topological_sort` itself, and its indifference to the order of its input. */
module DagSort {
  import opened Sequences
  import opened Sorting
  import opened FeatureModel
  import opened Dag

  lemma {:induction false} DegreeNext(nodes: seq<Node>, i: nat, name: string, names: seq<string>)
    requires i < |nodes|
    ensures DegreeIn(nodes[..i + 1], name, names)
         == DegreeIn(nodes[..i], name, names)
            + if nodes[i].name == name then KnownCount(nodes[i].dependencies, names) else 0
  {
    TakeNext(nodes, i);
  }

  lemma {:induction false} ChildrenNext(nodes: seq<Node>, i: nat, d: string)
    requires i < |nodes|
    ensures ChildrenIn(nodes[..i + 1], d)
         == ChildrenIn(nodes[..i], d) + Repeat(nodes[i].name, multiset(nodes[i].dependencies)[d])
  {
    TakeNext(nodes, i);
  }

  lemma KnownNext(dependencies: seq<string>, j: nat, names: seq<string>)
    requires j < |dependencies|
    ensures KnownCount(dependencies[..j + 1], names)
         == KnownCount(dependencies[..j], names) + if dependencies[j] in names then 1 else 0
  {
    var known := (d: string) => d in names;
    FilterAppend(dependencies[..j], [dependencies[j]], known);
    assert dependencies[..j + 1] == dependencies[..j] + [dependencies[j]];
    assert [dependencies[j]][1..] == [];
  }

  /** The edge lists once the dependencies `done` of the node `name` are entered. */
  ghost predicate Entered(edges: map<string, seq<string>>, edges0: map<string, seq<string>>, names: seq<string>,
                          name: string, done: seq<string>) {
    forall d :: d in names ==> ListOf(edges, d) == ListOf(edges0, d) + Repeat(name, multiset(done)[d])
  }

  lemma EnteredNext(edges: map<string, seq<string>>, edges0: map<string, seq<string>>, names: seq<string>,
                    name: string, done: seq<string>, d: string)
    requires Entered(edges, edges0, names, name, done)
    ensures Entered(if d in names then edges[d := ListOf(edges, d) + [name]] else edges, edges0, names, name,
      done + [d])
  {
    var edges' := if d in names then edges[d := ListOf(edges, d) + [name]] else edges;
    forall e | e in names ensures ListOf(edges', e) == ListOf(edges0, e) + Repeat(name, multiset(done + [d])[e]) {
      assert ListOf(edges', e) == ListOf(edges, e) + if e == d then [name] else [];
      RepeatNext(done, d, e, name);
      AppendAssociative(ListOf(edges0, e), Repeat(name, multiset(done)[e]), if e == d then [name] else []);
    }
  }

  lemma RepeatNext(done: seq<string>, d: string, e: string, name: string)
    ensures Repeat(name, multiset(done + [d])[e]) == Repeat(name, multiset(done)[e]) + if e == d then [name] else []
  {
    assert multiset(done + [d])[e] == multiset(done)[e] + if e == d then 1 else 0;
  }

  ghost predicate Raised(after: map<string, int>, before: map<string, int>, name: string, n: int) {
    name in before && after == before[name := before[name] + n]
  }

  /** Edges and degrees once the first `j` dependencies of a node are entered. */
  ghost predicate Contributed(edges: map<string, seq<string>>, indegree: map<string, int>,
                              edges0: map<string, seq<string>>, indegree0: map<string, int>,
                              node: Node, names: seq<string>, j: nat) {
    && j <= |node.dependencies|
    && Entered(edges, edges0, names, node.name, node.dependencies[..j])
    && Raised(indegree, indegree0, node.name, KnownCount(node.dependencies[..j], names))
  }

  lemma ContributedNext(edges: map<string, seq<string>>, indegree: map<string, int>,
                        edges0: map<string, seq<string>>, indegree0: map<string, int>,
                        node: Node, names: seq<string>, j: nat)
    requires Contributed(edges, indegree, edges0, indegree0, node, names, j) && j < |node.dependencies|
    ensures node.name in indegree
    ensures var d := node.dependencies[j];
            if d in names
            then Contributed(edges[d := ListOf(edges, d) + [node.name]], indegree[node.name := indegree[node.name] + 1],
                             edges0, indegree0, node, names, j + 1)
            else Contributed(edges, indegree, edges0, indegree0, node, names, j + 1)
  {
    KnownNext(node.dependencies, j, names);
    TakeNext(node.dependencies, j);
    EnteredNext(edges, edges0, names, node.name, node.dependencies[..j], node.dependencies[j]);
  }

  /** The edges and degrees one node contributes. */
  method AddEdges(node: Node, names: seq<string>, edges0: map<string, seq<string>>, indegree0: map<string, int>)
    returns (edges: map<string, seq<string>>, indegree: map<string, int>)
    requires node.name in indegree0
    ensures indegree == indegree0[node.name := indegree0[node.name] + KnownCount(node.dependencies, names)]
    ensures Entered(edges, edges0, names, node.name, node.dependencies)
  {
    edges, indegree := edges0, indegree0;
    var deps := node.dependencies;
    for j := 0 to |deps|
      invariant Contributed(edges, indegree, edges0, indegree0, node, names, j)
    {
      ContributedNext(edges, indegree, edges0, indegree0, node, names, j);
      if deps[j] in names {
        edges := edges[deps[j] := ListOf(edges, deps[j]) + [node.name]];
        indegree := indegree[node.name := indegree[node.name] + 1];
      }
    }
    TakeAll(deps);
  }

  /** Release the children of an output node, queueing those that wait for nothing else. */
  method Release(children: seq<string>, indegree0: map<string, int>, queue0: seq<string>)
    returns (indegree: map<string, int>, queue: seq<string>)
    requires forall c :: c in children ==> c in indegree0
    ensures indegree == Lowered(children, indegree0)
    ensures queue == queue0 + Freed(children, indegree0)
  {
    indegree, queue := indegree0, queue0;
    for k := 0 to |children|
      invariant forall c :: c in children ==> c in indegree
      invariant Lowered(children[k..], indegree) == Lowered(children, indegree0)
      invariant queue + Freed(children[k..], indegree) == queue0 + Freed(children, indegree0)
    {
      var child := children[k];
      assert children[k..][1..] == children[k + 1..];
      indegree := indegree[child := indegree[child] - 1];
      if indegree[child] == 0 {
        queue := queue + [child];
      }
    }
  }

  method CollectNames(nodes: seq<Node>) returns (names: seq<string>, byName: map<string, Node>)
    ensures names == NamesOf(nodes) && byName == ByName(nodes)
  {
    names, byName := [], map[];
    TakeAll(nodes);
    for i := 0 to |nodes|
      invariant names == NamesOf(nodes[..i]) && byName == ByName(nodes[..i])
    {
      TakeNext(nodes, i);
      if nodes[i].name !in names {
        names := names + [nodes[i].name];
      }
      byName := byName[nodes[i].name := nodes[i]];
    }
  }

  ghost predicate DegreesOf(indegree: map<string, int>, names: seq<string>, done: seq<Node>) {
    && (forall n :: n in indegree <==> n in names)
    && (forall n :: n in names ==> indegree[n] == DegreeIn(done, n, names))
  }

  ghost predicate EdgesOf(edges: map<string, seq<string>>, names: seq<string>, done: seq<Node>) {
    forall d :: d in names ==> ListOf(edges, d) == ChildrenIn(done, d)
  }

  /** Degrees and edge lists after the nodes `done`. */
  ghost predicate Built(edges: map<string, seq<string>>, indegree: map<string, int>, names: seq<string>,
                        done: seq<Node>) {
    DegreesOf(indegree, names, done) && EdgesOf(edges, names, done)
  }

  lemma DegreesNext(indegree: map<string, int>, names: seq<string>, nodes: seq<Node>, i: nat,
                    indegree': map<string, int>)
    requires i < |nodes| && nodes[i].name in names && DegreesOf(indegree, names, nodes[..i])
    requires indegree' == indegree[nodes[i].name := indegree[nodes[i].name] + KnownCount(nodes[i].dependencies, names)]
    ensures DegreesOf(indegree', names, nodes[..i + 1])
  {
    forall n | n in names ensures indegree'[n] == DegreeIn(nodes[..i + 1], n, names) {
      DegreeNext(nodes, i, n, names);
    }
  }

  lemma EdgesNext(edges: map<string, seq<string>>, names: seq<string>, nodes: seq<Node>, i: nat,
                  edges': map<string, seq<string>>)
    requires i < |nodes| && EdgesOf(edges, names, nodes[..i])
    requires Entered(edges', edges, names, nodes[i].name, nodes[i].dependencies)
    ensures EdgesOf(edges', names, nodes[..i + 1])
  {
    forall d | d in names ensures ListOf(edges', d) == ChildrenIn(nodes[..i + 1], d) {
      ChildrenNext(nodes, i, d);
    }
  }

  lemma BuiltNext(edges: map<string, seq<string>>, indegree: map<string, int>, names: seq<string>, nodes: seq<Node>,
                  i: nat, edges': map<string, seq<string>>, indegree': map<string, int>)
    requires i < |nodes| && Built(edges, indegree, names, nodes[..i]) && nodes[i].name in names
    requires Entered(edges', edges, names, nodes[i].name, nodes[i].dependencies)
    requires indegree' == indegree[nodes[i].name := indegree[nodes[i].name] + KnownCount(nodes[i].dependencies, names)]
    ensures Built(edges', indegree', names, nodes[..i + 1])
  {
    DegreesNext(indegree, names, nodes, i, indegree');
    EdgesNext(edges, names, nodes, i, edges');
  }

  method CollectEdges(nodes: seq<Node>, names: seq<string>)
    returns (edges: map<string, seq<string>>, indegree: map<string, int>)
    requires names == NamesOf(nodes)
    ensures Built(edges, indegree, names, nodes)
  {
    edges, indegree := map[], map n | n in names :: 0;
    assert Built(edges, indegree, names, []) && nodes[..0] == [];
    for i := 0 to |nodes|
      invariant Built(edges, indegree, names, nodes[..i])
    {
      NameKnown(nodes, i);
      var edges', indegree' := AddEdges(nodes[i], names, edges, indegree);
      BuiltNext(edges, indegree, names, nodes, i, edges', indegree');
      edges, indegree := edges', indegree';
    }
    TakeAll(nodes);
  }

  lemma NameKnown(nodes: seq<Node>, i: nat)
    requires i < |nodes|
    ensures nodes[i].name in NamesOf(nodes)
  {
    NamesMembers(nodes);
  }

  method TopologicalSort(nodes: seq<Node>) returns (result: Option<seq<Node>>)
    ensures result == Plan(nodes)
  {
    var names, byName := CollectNames(nodes);
    var edges, indegree := CollectEdges(nodes, names);
    var queue := Sort(Filter(names, n => n in indegree && indegree[n] == 0), StringLe);
    assert indegree == InDegrees(nodes);
    RootsFrom(nodes, names, indegree, queue);
    var order := Drain(nodes, edges, indegree, queue);
    OrderKnown(nodes);
    if |order| != |nodes| {
      return None;
    }
    result := Some(seq(|order|, i requires 0 <= i < |order| => byName[order[i]]));
  }

  lemma RootsFrom(nodes: seq<Node>, names: seq<string>, indegree: map<string, int>, queue: seq<string>)
    requires names == NamesOf(nodes) && indegree == InDegrees(nodes)
    requires queue == Sort(Filter(names, n => n in indegree && indegree[n] == 0), StringLe)
    ensures queue == Roots(nodes)
  {
    FilterSameBy(names, n => n in indegree && indegree[n] == 0,
      (n: string) => n in InDegrees(nodes) && InDegrees(nodes)[n] == 0);
  }

  /** The loop: output names until the queue is empty. */
  method Drain(nodes: seq<Node>, edges: map<string, seq<string>>, indegree0: map<string, int>, queue0: seq<string>)
    returns (out: seq<string>)
    requires indegree0 == InDegrees(nodes) && queue0 == Roots(nodes)
    requires forall d :: d in NamesOf(nodes) ==> ListOf(edges, d) == ChildrenIn(nodes, d)
    ensures out == OrderOf(nodes)
  {
    var indegree, queue := indegree0, queue0;
    ghost var children := SortedChildren(nodes);
    out := [];
    StartConsistent(nodes);
    while queue != []
      invariant Good(nodes, Sweep(indegree, queue, out))
        && Leads(OrderOf(nodes), |nodes|, children, Sweep(indegree, queue, out))
      decreases |nodes| - |out|
    {
      ghost var s := Sweep(indegree, queue, out);
      TurnGood(nodes, children, s);
      var next := Sort(ListOf(edges, queue[0]), StringLe);
      out := out + [queue[0]];
      indegree, queue := Release(next, indegree, queue[1..]);
      StepGood(nodes, s, Sweep(indegree, queue, out));
      LeadsNext(OrderOf(nodes), |nodes|, children, s, Sweep(indegree, queue, out));
    }
  }

  /** What is left to do from here, of `all` turns, leads to `goal`. */
  ghost predicate Leads(goal: seq<string>, all: nat, children: map<string, seq<string>>, s: Sweep) {
    |s.out| <= all && Kahn(children, s, all - |s.out|).out == goal
  }

  lemma LeadsNext(goal: seq<string>, all: nat, children: map<string, seq<string>>, s: Sweep, s': Sweep)
    requires Leads(goal, all, children, s) && s.queue != [] && |s.out| < all
    requires s' == Turn(children, s) && |s'.out| == |s.out| + 1
    ensures Leads(goal, all, children, s')
  {
    KahnTurn(children, s, s', all);
  }

  lemma TurnGood(nodes: seq<Node>, children: map<string, seq<string>>, s: Sweep)
    requires children == SortedChildren(nodes) && Good(nodes, s) && s.queue != []
    ensures |s.out| < |nodes| && s.queue[0] in NamesOf(nodes)
    ensures ListOf(children, s.queue[0]) == Sort(ChildrenIn(nodes, s.queue[0]), StringLe)
    ensures forall c :: c in ListOf(children, s.queue[0]) ==> c in s.indegree
  {
    RoomLeft(nodes, s);
    NextChildren(nodes, s.queue[0]);
  }

  lemma KahnTurn(children: map<string, seq<string>>, s: Sweep, s': Sweep, all: nat)
    requires s.queue != [] && |s.out| < all && s' == Turn(children, s) && |s'.out| == |s.out| + 1
    ensures Kahn(children, s, all - |s.out|) == Kahn(children, s', all - |s'.out|)
  {
  }

  lemma RoomLeft(nodes: seq<Node>, s: Sweep)
    requires Good(nodes, s) && s.queue != []
    ensures |s.out| < |nodes| && s.queue[0] in NamesOf(nodes)
  {
    NamesOnce(nodes);
    OnceBounded(s.out + s.queue, NamesOf(nodes));
    assert s.queue[0] in s.out + s.queue;
  }

  // ---- the input order does not matter ----

  lemma SameNames(a: seq<Node>, b: seq<Node>)
    requires forall node :: node in a <==> node in b
    ensures forall n :: n in NamesOf(a) <==> n in NamesOf(b)
  {
    NamesMembers(a);
    NamesMembers(b);
    forall n | n in NamesOf(a) ensures n in NamesOf(b) {
      var i :| 0 <= i < |a| && a[i].name == n;
      assert a[i] in b;
      var j :| 0 <= j < |b| && b[j] == a[i];
    }
    forall n | n in NamesOf(b) ensures n in NamesOf(a) {
      var i :| 0 <= i < |b| && b[i].name == n;
      assert b[i] in a;
      var j :| 0 <= j < |a| && a[j] == b[i];
    }
  }

  lemma SameDegree(a: seq<Node>, b: seq<Node>, n: string)
    requires DistinctNames(a) && DistinctNames(b) && forall node :: node in a <==> node in b
    requires n in NamesOf(a)
    ensures DegreeIn(a, n, NamesOf(a)) == DegreeIn(b, n, NamesOf(b))
  {
    NamesMembers(a);
    var i :| 0 <= i < |a| && a[i].name == n;
    assert a[i] in b;
    var j :| 0 <= j < |b| && b[j] == a[i];
    DegreeOfNode(a, i, NamesOf(a));
    DegreeOfNode(b, j, NamesOf(b));
    SameNames(a, b);
    FilterSameBy(a[i].dependencies, d => d in NamesOf(a), (d: string) => d in NamesOf(b));
  }

  lemma SameChildren(a: seq<Node>, b: seq<Node>, d: string)
    requires DistinctNames(a) && DistinctNames(b) && forall node :: node in a <==> node in b
    ensures Sort(ChildrenIn(a, d), StringLe) == Sort(ChildrenIn(b, d), StringLe)
  {
    forall c ensures multiset(ChildrenIn(a, d))[c] == multiset(ChildrenIn(b, d))[c] {
      if i :| 0 <= i < |a| && a[i].name == c {
        assert a[i] in b;
        var j :| 0 <= j < |b| && b[j] == a[i];
        ChildrenOfNode(a, d, i);
        ChildrenOfNode(b, d, j);
      } else {
        ChildrenMembers(a, d, c);
        forall j | 0 <= j < |b| ensures b[j].name != c {
          assert b[j] in a;
          var i :| 0 <= i < |a| && a[i] == b[j];
        }
        ChildrenMembers(b, d, c);
      }
    }
    SortStrings(ChildrenIn(a, d), ChildrenIn(b, d));
  }

  lemma SortStrings(a: seq<string>, b: seq<string>)
    requires multiset(a) == multiset(b)
    ensures Sort(a, StringLe) == Sort(b, StringLe)
  {
    StringOrder();
    forall i, j | 0 <= i < |a| && 0 <= j < |a| && StringLe(a[i], a[j]) && StringLe(a[j], a[i]) ensures a[i] == a[j] {
      StringLeTotal(a[i], a[j]);
    }
    SortPermutation(a, b, StringLe);
  }

  lemma SameRoots(a: seq<Node>, b: seq<Node>)
    requires InDegrees(a) == InDegrees(b)
    ensures Roots(a) == Roots(b)
  {
    RootsAreSources(a);
    RootsAreSources(b);
    StringOrder();
    forall n ensures n in Roots(a) <==> n in Roots(b) {
      assert n in NamesOf(a) <==> n in InDegrees(a);
      assert n in NamesOf(b) <==> n in InDegrees(b);
    }
    forall n ensures multiset(Roots(a))[n] == multiset(Roots(b))[n] {
      OnceCount(Roots(a), n);
      OnceCount(Roots(b), n);
      assert n in multiset(Roots(a)) <==> n in Roots(a);
      assert n in multiset(Roots(b)) <==> n in Roots(b);
    }
    var sa := Filter(NamesOf(a), (n: string) => n in InDegrees(a) && InDegrees(a)[n] == 0);
    var sb := Filter(NamesOf(b), (n: string) => n in InDegrees(b) && InDegrees(b)[n] == 0);
    SortStrings(sa, sb);
  }

  lemma SameByName(a: seq<Node>, b: seq<Node>)
    requires DistinctNames(a) && DistinctNames(b) && forall node :: node in a <==> node in b
    ensures ByName(a) == ByName(b)
  {
    ByNameKeys(a);
    ByNameKeys(b);
    SameNames(a, b);
    forall n | n in ByName(a) ensures ByName(a)[n] == ByName(b)[n] {
      DistinctNode(a, ByName(a)[n], ByName(b)[n]);
    }
  }

  lemma SameNodes(a: seq<Node>, b: seq<Node>)
    requires multiset(a) == multiset(b) && DistinctNames(a)
    ensures DistinctNames(b) && |a| == |b| && forall node :: node in a <==> node in b
  {
    SameMembers(a, b);
    forall i, j | 0 <= i < j < |b| ensures b[i].name != b[j].name {
      assert b[i] in a && b[j] in a;
      var k :| 0 <= k < |a| && a[k] == b[i];
      var l :| 0 <= l < |a| && a[l] == b[j];
      NodeCount(a, b[i]);
      TwiceIn(b, i, j);
    }
  }

  /** Every ordering of the input list gives the same plan, or none. */
  lemma InputOrderIrrelevant(a: seq<Node>, b: seq<Node>)
    requires multiset(a) == multiset(b)
    ensures Plan(a) == Plan(b)
  {
    if DistinctNames(a) {
      SameNodes(a, b);
      SamePlan(a, b);
    } else {
      if DistinctNames(b) {
        SameNodes(b, a);
      }
      PlanCorrect(a);
      PlanCorrect(b);
    }
  }

  lemma SamePlan(a: seq<Node>, b: seq<Node>)
    requires DistinctNames(a) && DistinctNames(b) && |a| == |b| && forall node :: node in a <==> node in b
    ensures Plan(a) == Plan(b)
  {
    SameNames(a, b);
    assert InDegrees(a) == InDegrees(b) by {
      forall n | n in NamesOf(a) ensures InDegrees(a)[n] == InDegrees(b)[n] {
        SameDegree(a, b, n);
      }
    }
    assert SortedChildren(a) == SortedChildren(b) by {
      forall n | n in NamesOf(a) ensures SortedChildren(a)[n] == SortedChildren(b)[n] {
        SameChildren(a, b, n);
      }
    }
    SameRoots(a, b);
    SameByName(a, b);
    assert OrderOf(a) == OrderOf(b);
  }
}
