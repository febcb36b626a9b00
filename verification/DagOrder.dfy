/** Which of the possible orders a plan is (`dag.py`). */
module DagOrder {
  import opened Sequences
  import opened Sorting
  import opened FeatureModel
  import opened Dag

  /** Nothing the node mentions is still to come. */
  predicate Ready(nodes: seq<Node>, name: string, done: seq<string>) {
    Waiting(nodes, name, NamesOf(nodes), done) == 0
  }

  lemma ReadyIs(nodes: seq<Node>, name: string, done: seq<string>)
    ensures Ready(nodes, name, done) <==>
      forall i, d :: 0 <= i < |nodes| && nodes[i].name == name && d in nodes[i].dependencies && d in NamesOf(nodes) ==>
        d in done
  {
    WaitingZero(nodes, name, NamesOf(nodes), done);
    forall i | 0 <= i < |nodes| && nodes[i].name == name
      ensures Pending(nodes[i].dependencies, NamesOf(nodes), done) == 0 <==>
        forall d :: d in nodes[i].dependencies && d in NamesOf(nodes) ==> d in done
    {
      PendingZero(nodes[i].dependencies, NamesOf(nodes), done);
    }
  }

  lemma ReadyStays(nodes: seq<Node>, name: string, done: seq<string>, more: seq<string>)
    requires Ready(nodes, name, done) && forall d :: d in done ==> d in more
    ensures Ready(nodes, name, more)
  {
    ReadyIs(nodes, name, done);
    ReadyIs(nodes, name, more);
  }

  function ReadyIn(nodes: seq<Node>, all: seq<string>): (string, nat) -> bool {
    (name: string, k: nat) => k <= |all| && Ready(nodes, name, all[..k])
  }

  /** Up to `m`, `a` was ready whenever `b` was; if as early, it is not above `b`. */
  ghost predicate Leads(ready: (string, nat) -> bool, m: nat, a: string, b: string) {
    && (forall k :: 0 <= k <= m && ready(b, k) ==> ready(a, k))
    && ((forall k :: 0 <= k <= m && ready(a, k) ==> ready(b, k)) ==> StringLe(a, b))
  }

  /** What is out or queued came in turn and is ready by now. */
  ghost predicate AllInTurn(ready: (string, nat) -> bool, m: nat, all: seq<string>) {
    && (forall i, j :: 0 <= i < j < |all| ==> Leads(ready, m, all[i], all[j]))
    && forall i :: 0 <= i < |all| ==> ready(all[i], m)
  }

  ghost predicate NotYet(ready: (string, nat) -> bool, m: nat, n: string) {
    forall k :: 0 <= k <= m ==> !ready(n, k)
  }

  /** Ready after `m` and not before. */
  ghost predicate JustReady(ready: (string, nat) -> bool, m: nat, freed: seq<string>) {
    forall i :: 0 <= i < |freed| ==> ready(freed[i], m + 1) && NotYet(ready, m, freed[i])
  }

  ghost predicate AllReady(ready: (string, nat) -> bool, m: nat, all: seq<string>) {
    forall i :: 0 <= i < |all| ==> ready(all[i], m)
  }

  ghost predicate Queued(nodes: seq<Node>, s: Sweep) {
    AllInTurn(ReadyIn(nodes, s.out + s.queue), |s.out|, s.out + s.queue)
  }

  lemma InTurnNext(ready: (string, nat) -> bool, m: nat, all: seq<string>, freed: seq<string>)
    requires AllInTurn(ready, m, all) && SortedBy(freed, StringLe)
    requires AllReady(ready, m + 1, all) && JustReady(ready, m, freed)
    ensures AllInTurn(ready, m + 1, all + freed)
  {
    var now := all + freed;
    forall i, j | 0 <= i < j < |now| ensures Leads(ready, m + 1, now[i], now[j]) {
      if j < |all| {
        assert Leads(ready, m, all[i], all[j]);
      } else {
        var f := freed[j - |all|];
        assert NotYet(ready, m, f);
        assert !ready(f, m) && ready(f, m + 1);
        if i < |all| {
          assert ready(all[i], m);
        } else {
          assert NotYet(ready, m, freed[i - |all|]) && ready(freed[i - |all|], m + 1);
          assert StringLe(freed[i - |all|], f);
        }
      }
    }
  }

  lemma {:induction false} FreedSorted(children: seq<string>, indegree: map<string, int>)
    requires SortedBy(children, StringLe) && forall c :: c in children ==> c in indegree
    ensures SortedBy(Freed(children, indegree), StringLe)
    ensures forall n :: n in Freed(children, indegree) ==> n in children
  {
    if children != [] {
      assert children == [children[0]] + children[1..];
      var lowered := indegree[children[0] := indegree[children[0]] - 1];
      FreedSorted(children[1..], lowered);
      var rest := Freed(children[1..], lowered);
      forall k | 0 <= k < |rest| ensures StringLe(children[0], rest[k]) {
        assert rest[k] in children[1..];
        var m :| 0 <= m < |children| - 1 && children[1..][m] == rest[k];
        assert children[m + 1] == rest[k];
      }
    }
  }

  lemma RootsReady(nodes: seq<Node>)
    ensures SortedBy(Roots(nodes), StringLe) && forall n :: n in Roots(nodes) ==> Ready(nodes, n, [])
  {
    RootsAreSources(nodes);
    StringOrder();
    SortSorted(Filter(NamesOf(nodes), (n: string) => n in InDegrees(nodes) && InDegrees(nodes)[n] == 0), StringLe);
    forall n | n in Roots(nodes) ensures Ready(nodes, n, []) {
      WaitingStart(nodes, n, NamesOf(nodes));
    }
  }

  lemma StartInTurn(ready: (string, nat) -> bool, all: seq<string>)
    requires SortedBy(all, StringLe) && forall n :: n in all ==> ready(n, 0)
    ensures AllInTurn(ready, 0, all)
  {
    forall i, j | 0 <= i < j < |all| ensures Leads(ready, 0, all[i], all[j]) {
      assert all[i] in all && StringLe(all[i], all[j]);
    }
  }

  lemma StartQueued(nodes: seq<Node>)
    ensures Queued(nodes, Sweep(InDegrees(nodes), Roots(nodes), []))
  {
    var roots := Roots(nodes);
    RootsReady(nodes);
    assert [] + roots == roots && roots[..0] == [];
    StartInTurn(ReadyIn(nodes, roots), roots);
  }

  /** What a turn frees was not ready before it and is ready after it. */
  lemma FreedReady(nodes: seq<Node>, s: Sweep, n: string)
    requires s.queue != [] && Consistent(nodes, s)
    requires n in Freed(ListOf(SortedChildren(nodes), s.queue[0]), s.indegree)
    ensures Ready(nodes, n, s.out + [s.queue[0]]) && !Ready(nodes, n, s.out)
  {
    var next := ListOf(SortedChildren(nodes), s.queue[0]);
    StepDegrees(nodes, s);
    FreedCounts(next, s.indegree);
    assert n in next && multiset(next)[n] > 0;
  }

  lemma NextSorted(nodes: seq<Node>, s: Sweep)
    requires s.queue != [] && Consistent(nodes, s)
    ensures SortedBy(Freed(ListOf(SortedChildren(nodes), s.queue[0]), s.indegree), StringLe)
  {
    assert s.queue[0] in s.out + s.queue;
    StepDegrees(nodes, s);
    StringOrder();
    SortSorted(ChildrenIn(nodes, s.queue[0]), StringLe);
    FreedSorted(ListOf(SortedChildren(nodes), s.queue[0]), s.indegree);
  }

  /** What was in play is in turn and ready after it too. */
  lemma HeldReady(nodes: seq<Node>, all: seq<string>, freed: seq<string>, m: nat)
    requires m < |all| && AllInTurn(ReadyIn(nodes, all), m, all)
    ensures AllInTurn(ReadyIn(nodes, all + freed), m, all)
    ensures AllReady(ReadyIn(nodes, all + freed), m + 1, all)
  {
    var ready, before := ReadyIn(nodes, all + freed), ReadyIn(nodes, all);
    forall n, k: nat | k <= m + 1 ensures ready(n, k) <==> before(n, k) {
      assert (all + freed)[..k] == all[..k];
    }
    SameTurn(ready, before, m, all);
    forall i | 0 <= i < |all| ensures ready(all[i], m + 1) {
      assert before(all[i], m);
      ReadyStays(nodes, all[i], all[..m], all[..m + 1]);
    }
  }

  /** A name that is ready at `m + 1` and not at `m` was not ready before. */
  lemma FreedInTurn(nodes: seq<Node>, all: seq<string>, more: seq<string>, m: nat, n: string)
    requires m < |all| && Ready(nodes, n, all[..m + 1]) && !Ready(nodes, n, all[..m])
    ensures ReadyIn(nodes, all + more)(n, m + 1) && NotYet(ReadyIn(nodes, all + more), m, n)
  {
    assert (all + more)[..m + 1] == all[..m + 1];
    forall k | 0 <= k <= m ensures !ReadyIn(nodes, all + more)(n, k) {
      assert (all + more)[..k] == all[..k];
      if Ready(nodes, n, all[..k]) {
        ReadyStays(nodes, n, all[..k], all[..m]);
      }
    }
  }

  lemma SameTurn(a: (string, nat) -> bool, b: (string, nat) -> bool, m: nat, all: seq<string>)
    requires AllInTurn(b, m, all) && forall n, k: nat :: k <= m ==> (a(n, k) <==> b(n, k))
    ensures AllInTurn(a, m, all)
  {
    forall i, j | 0 <= i < j < |all| ensures Leads(a, m, all[i], all[j]) {
      assert Leads(b, m, all[i], all[j]);
    }
  }

  ghost predicate FreedNow(nodes: seq<Node>, before: seq<string>, done: seq<string>, freed: seq<string>) {
    forall i :: 0 <= i < |freed| ==> Ready(nodes, freed[i], done) && !Ready(nodes, freed[i], before)
  }

  lemma AllFreedNow(nodes: seq<Node>, s: Sweep)
    requires s.queue != [] && Consistent(nodes, s)
    ensures FreedNow(nodes, s.out, s.out + [s.queue[0]], Freed(ListOf(SortedChildren(nodes), s.queue[0]), s.indegree))
  {
    var freed := Freed(ListOf(SortedChildren(nodes), s.queue[0]), s.indegree);
    forall i | 0 <= i < |freed|
      ensures Ready(nodes, freed[i], s.out + [s.queue[0]]) && !Ready(nodes, freed[i], s.out)
    {
      FreedReady(nodes, s, freed[i]);
    }
  }

  lemma FreedAround(nodes: seq<Node>, all: seq<string>, freed: seq<string>, m: nat)
    requires m < |all| && FreedNow(nodes, all[..m], all[..m + 1], freed)
    ensures JustReady(ReadyIn(nodes, all + freed), m, freed)
  {
    forall i | 0 <= i < |freed|
      ensures ReadyIn(nodes, all + freed)(freed[i], m + 1) && NotYet(ReadyIn(nodes, all + freed), m, freed[i])
    {
      FreedInTurn(nodes, all, freed, m, freed[i]);
    }
  }

  lemma Prefixes(out: seq<string>, queue: seq<string>)
    requires queue != []
    ensures (out + queue)[..|out|] == out && (out + queue)[..|out| + 1] == out + [queue[0]]
  {
  }

  lemma TurnQueued(nodes: seq<Node>, s: Sweep)
    requires s.queue != [] && Consistent(nodes, s) && Queued(nodes, s)
    ensures Queued(nodes, Turn(SortedChildren(nodes), s))
  {
    NextSorted(nodes, s);
    AllFreedNow(nodes, s);
    var freed := Freed(ListOf(SortedChildren(nodes), s.queue[0]), s.indegree);
    QueuedNext(nodes, s, freed, Turn(SortedChildren(nodes), s));
  }

  lemma QueuedNext(nodes: seq<Node>, s: Sweep, freed: seq<string>, now: Sweep)
    requires s.queue != [] && Queued(nodes, s)
    requires FreedNow(nodes, s.out, s.out + [s.queue[0]], freed) && SortedBy(freed, StringLe)
    requires now.out == s.out + [s.queue[0]] && now.queue == s.queue[1..] + freed
    ensures Queued(nodes, now)
  {
    Prefixes(s.out, s.queue);
    StepInTurn(nodes, s.out + s.queue, freed, |s.out|);
    AppendOnce(s.out, s.queue, freed);
  }

  lemma StepInTurn(nodes: seq<Node>, all: seq<string>, freed: seq<string>, m: nat)
    requires m < |all| && AllInTurn(ReadyIn(nodes, all), m, all)
    requires FreedNow(nodes, all[..m], all[..m + 1], freed) && SortedBy(freed, StringLe)
    ensures AllInTurn(ReadyIn(nodes, all + freed), m + 1, all + freed)
  {
    HeldReady(nodes, all, freed, m);
    FreedAround(nodes, all, freed, m);
    InTurnNext(ReadyIn(nodes, all + freed), m, all, freed);
  }

  lemma AppendOnce(out: seq<string>, queue: seq<string>, freed: seq<string>)
    requires queue != []
    ensures (out + [queue[0]]) + (queue[1..] + freed) == out + queue + freed
  {
  }

  lemma KahnQueued(nodes: seq<Node>, turns: nat)
    ensures Queued(nodes, Kahn(SortedChildren(nodes), Sweep(InDegrees(nodes), Roots(nodes), []), turns))
  {
    var keeps := (s: Sweep) => Good(nodes, s) && Queued(nodes, s);
    var start := Sweep(InDegrees(nodes), Roots(nodes), []);
    StartConsistent(nodes);
    StartQueued(nodes);
    assert keeps(start);
    forall t: Sweep | keeps(t) && t.queue != [] ensures keeps(Turn(SortedChildren(nodes), t)) {
      StepGood(nodes, t, Turn(SortedChildren(nodes), t));
      TurnQueued(nodes, t);
    }
    KahnKeeps(SortedChildren(nodes), start, turns, keeps);
    assert keeps(Kahn(SortedChildren(nodes), start, turns));
  }

  /** What the i-th planned node depends on, of the planned ones, is among the first k. */
  predicate DoneBy(plan: seq<Node>, i: nat, k: nat)
    requires i < |plan| && k <= |plan|
  {
    forall j :: 0 <= j < |plan| && plan[j].name in plan[i].dependencies ==> j < k
  }

  /**
    * A plan puts nodes in the order in which their dependencies are done, and by name those whose
    * dependencies are done at the same time. That leaves no choice.
    */
  lemma PlanIsFirstReadyFirst(nodes: seq<Node>, i: nat, j: nat)
    requires Plan(nodes).Some? && i < j < |Plan(nodes).value|
    ensures var plan := Plan(nodes).value;
            && (forall k :: 0 <= k <= |plan| && DoneBy(plan, j, k) ==> DoneBy(plan, i, k))
            && ((forall k :: 0 <= k <= |plan| && DoneBy(plan, i, k) ==> DoneBy(plan, j, k)) ==>
                  StringLe(plan[i].name, plan[j].name))
  {
    var plan := Plan(nodes).value;
    var order := PlanNames(nodes);
    OrderInTurn(nodes);
    LeadsInPlan(nodes, plan, order, i, j);
  }

  lemma LeadsInPlan(nodes: seq<Node>, plan: seq<Node>, order: seq<string>, i: nat, j: nat)
    requires Plan(nodes) == Some(plan) && Names(nodes, order, plan) && Once(order) && i < j < |plan|
    requires AllInTurn(ReadyIn(nodes, order), |plan|, order)
    ensures forall k :: 0 <= k <= |plan| && DoneBy(plan, j, k) ==> DoneBy(plan, i, k)
    ensures (forall k :: 0 <= k <= |plan| && DoneBy(plan, i, k) ==> DoneBy(plan, j, k)) ==>
      StringLe(plan[i].name, plan[j].name)
  {
    var ready := ReadyIn(nodes, order);
    assert Leads(ready, |plan|, order[i], order[j]);
    forall k | 0 <= k <= |plan|
      ensures (DoneBy(plan, i, k) <==> ready(order[i], k)) && (DoneBy(plan, j, k) <==> ready(order[j], k))
    {
      DoneIsReady(nodes, plan, order, i, k);
      DoneIsReady(nodes, plan, order, j, k);
    }
  }

  lemma OrderInTurn(nodes: seq<Node>)
    ensures AllInTurn(ReadyIn(nodes, OrderOf(nodes)), |OrderOf(nodes)|, OrderOf(nodes))
  {
    var start := Sweep(InDegrees(nodes), Roots(nodes), []);
    var last := Kahn(SortedChildren(nodes), start, |nodes|);
    KahnEnds(nodes, start, last);
    KahnQueued(nodes, |nodes|);
    assert last.out + last.queue == last.out;
  }

  lemma DoneIsReady(nodes: seq<Node>, plan: seq<Node>, order: seq<string>, m: nat, k: nat)
    requires Plan(nodes) == Some(plan) && Names(nodes, order, plan) && Once(order)
    requires m < |plan| && k <= |plan|
    ensures DoneBy(plan, m, k) <==> Ready(nodes, order[m], order[..k])
  {
    ReadyIs(nodes, order[m], order[..k]);
    AllPlanned(nodes, plan, order);
    NamedOnce(nodes, plan, order, m);
    FirstOnes(order, k);
  }

  lemma AllPlanned(nodes: seq<Node>, plan: seq<Node>, order: seq<string>)
    requires Plan(nodes) == Some(plan) && Names(nodes, order, plan)
    ensures forall node :: node in nodes <==> node in plan
    ensures forall d :: d in NamesOf(nodes) <==> d in order
  {
    PlanCorrect(nodes);
    SameMembers(plan, nodes);
    NamesMembers(nodes);
    forall d | d in NamesOf(nodes) ensures d in order {
      var n :| 0 <= n < |nodes| && nodes[n].name == d;
      assert nodes[n] in plan;
      var j :| 0 <= j < |plan| && plan[j] == nodes[n];
      assert order[j] == d;
    }
  }

  lemma NamedOnce(nodes: seq<Node>, plan: seq<Node>, order: seq<string>, m: nat)
    requires Names(nodes, order, plan) && Once(order) && m < |plan|
    requires forall node :: node in nodes <==> node in plan
    ensures forall n :: 0 <= n < |nodes| && nodes[n].name == order[m] ==> nodes[n] == plan[m]
    ensures exists n :: 0 <= n < |nodes| && nodes[n] == plan[m]
  {
    forall n | 0 <= n < |nodes| && nodes[n].name == order[m] ensures nodes[n] == plan[m] {
      assert nodes[n] in plan;
      var j :| 0 <= j < |plan| && plan[j] == nodes[n];
      assert order[j] == order[m];
    }
    assert plan[m] in nodes;
  }

  lemma FirstOnes(order: seq<string>, k: nat)
    requires Once(order) && k <= |order|
    ensures forall j :: 0 <= j < |order| ==> (order[j] in order[..k] <==> j < k)
  {
    forall j | 0 <= j < |order| ensures order[j] in order[..k] <==> j < k {
      if j < k {
        assert order[..k][j] == order[j];
      }
    }
  }
}
