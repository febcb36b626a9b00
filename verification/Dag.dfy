/** The order in which a feature set's nodes are planned (`dag.py`): Kahn's algorithm. */
module Dag {
  import opened Sequences
  import opened Sorting
  import opened FeatureModel

  /** The keys of a dictionary filled from the nodes, in insertion order. */
  function NamesOf(nodes: seq<Node>): (r: seq<string>) {
    if nodes == [] then []
    else
      var front, name := NamesOf(nodes[..|nodes| - 1]), nodes[|nodes| - 1].name;
      if name in front then front else front + [name]
  }

  function Repeat(name: string, n: nat): (r: seq<string>) {
    if n == 0 then [] else Repeat(name, n - 1) + [name]
  }

  function KnownCount(dependencies: seq<string>, names: seq<string>): nat {
    |Filter(dependencies, (d: string) => d in names)|
  }

  /** One entry in the edge list of `d` for every mention of `d` as a dependency. */
  function ChildrenIn(nodes: seq<Node>, d: string): seq<string> {
    if nodes == [] then []
    else
      var last := nodes[|nodes| - 1];
      ChildrenIn(nodes[..|nodes| - 1], d) + Repeat(last.name, multiset(last.dependencies)[d])
  }

  /** How many known dependencies the nodes called `name` mention. */
  function DegreeIn(nodes: seq<Node>, name: string, names: seq<string>): nat {
    if nodes == [] then 0
    else
      var last := nodes[|nodes| - 1];
      DegreeIn(nodes[..|nodes| - 1], name, names)
      + if last.name == name then KnownCount(last.dependencies, names) else 0
  }

  function InDegrees(nodes: seq<Node>): map<string, int> {
    var names := NamesOf(nodes);
    map name | name in names :: DegreeIn(nodes, name, names)
  }

  function SortedChildren(nodes: seq<Node>): map<string, seq<string>> {
    map name | name in NamesOf(nodes) :: Sort(ChildrenIn(nodes, name), StringLe)
  }

  function Lowered(children: seq<string>, indegree: map<string, int>): map<string, int> {
    if children == [] || children[0] !in indegree then indegree
    else Lowered(children[1..], indegree[children[0] := indegree[children[0]] - 1])
  }

  function Freed(children: seq<string>, indegree: map<string, int>): seq<string> {
    if children == [] || children[0] !in indegree then []
    else
      var c := children[0];
      var rest := Freed(children[1..], indegree[c := indegree[c] - 1]);
      if indegree[c] == 1 then [c] + rest else rest
  }

  function ListOf(m: map<string, seq<string>>, name: string): seq<string> {
    if name in m then m[name] else []
  }

  /** The variables of the loop; `out` holds the names of the nodes already in order. */
  datatype Sweep = Sweep(indegree: map<string, int>, queue: seq<string>, out: seq<string>)

  /** Take the first name of the queue and release its children. */
  function Turn(children: map<string, seq<string>>, s: Sweep): Sweep
    requires s.queue != []
  {
    var next := ListOf(children, s.queue[0]);
    Sweep(Lowered(next, s.indegree), s.queue[1..] + Freed(next, s.indegree), s.out + [s.queue[0]])
  }

  function Kahn(children: map<string, seq<string>>, s: Sweep, turns: nat): Sweep
    decreases turns
  {
    if s.queue == [] || turns == 0 then s else Kahn(children, Turn(children, s), turns - 1)
  }

  function Roots(nodes: seq<Node>): seq<string> {
    var indegree := InDegrees(nodes);
    Sort(Filter(NamesOf(nodes), (n: string) => n in indegree && indegree[n] == 0), StringLe)
  }

  function OrderOf(nodes: seq<Node>): seq<string> {
    Kahn(SortedChildren(nodes), Sweep(InDegrees(nodes), Roots(nodes), []), |nodes|).out
  }

  predicate DistinctNames(nodes: seq<Node>) {
    forall i, j :: 0 <= i < j < |nodes| ==> nodes[i].name != nodes[j].name
  }

  /** Node `user` mentions node `used`, which is one of the nodes. */
  predicate DependsOn(nodes: seq<Node>, user: string, used: string) {
    exists i, j :: 0 <= i < |nodes| && 0 <= j < |nodes| && nodes[i].name == user
      && used in nodes[i].dependencies && nodes[j].name == used
  }

  ghost predicate IsCycle(nodes: seq<Node>, cycle: seq<string>) {
    && 2 <= |cycle| && cycle[0] == cycle[|cycle| - 1]
    && forall i :: 0 <= i < |cycle| - 1 ==> DependsOn(nodes, cycle[i], cycle[i + 1])
  }

  ghost predicate Acyclic(nodes: seq<Node>) {
    forall cycle :: !IsCycle(nodes, cycle)
  }

  /** Every known dependency comes before its user. */
  ghost predicate Ordered(nodes: seq<Node>) {
    forall i, j :: 0 <= i < |nodes| && 0 <= j < |nodes| && nodes[j].name in nodes[i].dependencies ==> j < i
  }

  // ---- counting ----

  lemma {:induction false} NamesMembers(nodes: seq<Node>)
    ensures forall name :: name in NamesOf(nodes) <==> exists i :: 0 <= i < |nodes| && nodes[i].name == name
  {
    if nodes != [] {
      NamesMembers(nodes[..|nodes| - 1]);
      var front := nodes[..|nodes| - 1];
      forall name ensures name in NamesOf(nodes) <==> exists i :: 0 <= i < |nodes| && nodes[i].name == name {
        if i :| 0 <= i < |front| && front[i].name == name {
          assert nodes[i].name == name;
        }
        if i :| 0 <= i < |nodes| && nodes[i].name == name {
          if i < |front| {
            assert front[i].name == name;
          }
        }
      }
    }
  }

  lemma {:induction false} LoweredCounts(children: seq<string>, indegree: map<string, int>)
    requires forall c :: c in children ==> c in indegree
    ensures Lowered(children, indegree).Keys == indegree.Keys
    ensures forall n :: n in indegree ==> Lowered(children, indegree)[n] == indegree[n] - multiset(children)[n]
  {
    if children != [] {
      assert children == [children[0]] + children[1..];
      LoweredCounts(children[1..], indegree[children[0] := indegree[children[0]] - 1]);
    }
  }

  lemma {:induction false} FreedCounts(children: seq<string>, indegree: map<string, int>)
    requires forall c :: c in children ==> c in indegree
    requires forall n :: n in indegree ==> multiset(children)[n] <= indegree[n]
    ensures forall n :: n in Freed(children, indegree) <==> n in children && indegree[n] == multiset(children)[n]
    ensures forall n :: multiset(Freed(children, indegree))[n] <= 1
  {
    if children != [] {
      var c := children[0];
      assert children == [c] + children[1..];
      assert multiset(children)[c] >= 1;
      FreedCounts(children[1..], indegree[c := indegree[c] - 1]);
      if indegree[c] == 1 {
        assert c !in children[1..] by {
          assert multiset(children[1..])[c] == 0;
        }
      } else if indegree[c] == multiset(children)[c] {
        assert multiset(children[1..])[c] >= 1;
      }
    }
  }

  /** Mentions by a node of known dependencies not yet output. */
  function Pending(dependencies: seq<string>, names: seq<string>, done: seq<string>): nat {
    |Filter(dependencies, (d: string) => d in names && d !in done)|
  }

  lemma {:induction false} PendingStart(dependencies: seq<string>, names: seq<string>)
    ensures Pending(dependencies, names, []) == KnownCount(dependencies, names)
  {
    if dependencies != [] {
      PendingStart(dependencies[1..], names);
    }
  }

  lemma {:induction false} PendingStep(dependencies: seq<string>, names: seq<string>, done: seq<string>, name: string)
    requires name in names && name !in done
    ensures Pending(dependencies, names, done + [name])
      == Pending(dependencies, names, done) - multiset(dependencies)[name]
  {
    if dependencies != [] {
      assert dependencies == [dependencies[0]] + dependencies[1..];
      PendingStep(dependencies[1..], names, done, name);
    }
  }

  lemma {:induction false} PendingZero(dependencies: seq<string>, names: seq<string>, done: seq<string>)
    ensures Pending(dependencies, names, done) == 0 <==> forall d :: d in dependencies && d in names ==> d in done
  {
    if dependencies != [] {
      PendingZero(dependencies[1..], names, done);
      assert dependencies == [dependencies[0]] + dependencies[1..];
    }
  }

  /** Mentions of known dependencies not yet output, over all nodes called `name`. */
  function Waiting(nodes: seq<Node>, name: string, names: seq<string>, done: seq<string>): nat {
    if nodes == [] then 0
    else
      var last := nodes[|nodes| - 1];
      Waiting(nodes[..|nodes| - 1], name, names, done)
      + if last.name == name then Pending(last.dependencies, names, done) else 0
  }

  lemma {:induction false} WaitingStart(nodes: seq<Node>, name: string, names: seq<string>)
    ensures Waiting(nodes, name, names, []) == DegreeIn(nodes, name, names)
  {
    if nodes != [] {
      WaitingStart(nodes[..|nodes| - 1], name, names);
      PendingStart(nodes[|nodes| - 1].dependencies, names);
    }
  }

  lemma {:induction false} WaitingStep(nodes: seq<Node>, name: string, names: seq<string>, done: seq<string>, d: string)
    requires d in names && d !in done
    ensures Waiting(nodes, name, names, done + [d])
      == Waiting(nodes, name, names, done) - multiset(ChildrenIn(nodes, d))[name]
  {
    if nodes != [] {
      var last := nodes[|nodes| - 1];
      WaitingStep(nodes[..|nodes| - 1], name, names, done, d);
      PendingStep(last.dependencies, names, done, d);
      ChildrenCount(nodes, d, name);
    }
  }

  lemma {:induction false} WaitingZero(nodes: seq<Node>, name: string, names: seq<string>, done: seq<string>)
    ensures Waiting(nodes, name, names, done) == 0 <==>
      forall i :: 0 <= i < |nodes| && nodes[i].name == name ==> Pending(nodes[i].dependencies, names, done) == 0
  {
    if nodes != [] {
      var front := nodes[..|nodes| - 1];
      WaitingZero(front, name, names, done);
      assert forall i :: 0 <= i < |front| ==> front[i] == nodes[i];
    }
  }

  lemma {:induction false} RepeatCounts(name: string, n: nat, other: string)
    ensures multiset(Repeat(name, n))[other] == if name == other then n else 0
  {
    if n != 0 {
      RepeatCounts(name, n - 1, other);
    }
  }

  lemma ChildrenCount(nodes: seq<Node>, d: string, name: string)
    requires nodes != []
    ensures var last := nodes[|nodes| - 1];
            multiset(ChildrenIn(nodes, d))[name] == multiset(ChildrenIn(nodes[..|nodes| - 1], d))[name]
              + if last.name == name then multiset(last.dependencies)[d] else 0
  {
    var last := nodes[|nodes| - 1];
    RepeatCounts(last.name, multiset(last.dependencies)[d], name);
  }

  lemma {:induction false} ChildrenMembers(nodes: seq<Node>, d: string, name: string)
    ensures (forall i :: 0 <= i < |nodes| ==> nodes[i].name != name) ==> multiset(ChildrenIn(nodes, d))[name] == 0
  {
    if nodes != [] {
      var n := |nodes| - 1;
      ChildrenMembers(nodes[..n], d, name);
      ChildrenCount(nodes, d, name);
    }
  }

  lemma {:induction false} NamesOnce(nodes: seq<Node>)
    ensures Once(NamesOf(nodes)) && |NamesOf(nodes)| <= |nodes|
  {
    if nodes != [] {
      NamesOnce(nodes[..|nodes| - 1]);
    }
  }

  // ---- the invariant of the loop ----

  ghost predicate Once(s: seq<string>) {
    forall i, j :: 0 <= i < j < |s| ==> s[i] != s[j]
  }

  ghost predicate Consistent(nodes: seq<Node>, s: Sweep) {
    var names := NamesOf(nodes);
    && s.indegree.Keys == (set n | n in names)
    && Once(s.out + s.queue)
    && (forall n :: n in s.out + s.queue ==> n in names)
    && (forall n :: n in names ==> s.indegree[n] == Waiting(nodes, n, names, s.out))
    && (forall n :: n in names ==> (n in s.out + s.queue <==> s.indegree[n] == 0))
  }

  ghost predicate DoneBefore(nodes: seq<Node>, i: nat, done: seq<string>)
    requires i < |nodes|
  {
    forall d :: d in nodes[i].dependencies && d in NamesOf(nodes) ==> d in done
  }

  /** Whatever is mentioned by what is output, and known, was output earlier. */
  ghost predicate OutOrdered(nodes: seq<Node>, out: seq<string>) {
    forall k, i :: 0 <= k < |out| && 0 <= i < |nodes| && nodes[i].name == out[k] ==> DoneBefore(nodes, i, out[..k])
  }

  lemma StartConsistent(nodes: seq<Node>)
    ensures Consistent(nodes, Sweep(InDegrees(nodes), Roots(nodes), [])) && OutOrdered(nodes, [])
  {
    var names := NamesOf(nodes);
    forall n | n in names ensures InDegrees(nodes)[n] == Waiting(nodes, n, names, []) {
      WaitingStart(nodes, n, names);
    }
    RootsAreSources(nodes);
    assert [] + Roots(nodes) == Roots(nodes);
  }

  lemma RootsAreSources(nodes: seq<Node>)
    ensures Once(Roots(nodes))
    ensures forall n :: n in Roots(nodes) <==> n in NamesOf(nodes) && InDegrees(nodes)[n] == 0
  {
    NamesOnce(nodes);
    forall n
      ensures multiset(Roots(nodes))[n] <= 1
        && (n in Roots(nodes) <==> n in NamesOf(nodes) && InDegrees(nodes)[n] == 0) {
      RootCount(nodes, n);
      OnceCount(NamesOf(nodes), n);
    }
    CountOnce(Roots(nodes));
  }

  lemma RootCount(nodes: seq<Node>, n: string)
    ensures multiset(Roots(nodes))[n]
         == if n in InDegrees(nodes) && InDegrees(nodes)[n] == 0 then multiset(NamesOf(nodes))[n] else 0
    ensures n in Roots(nodes) <==> n in NamesOf(nodes) && InDegrees(nodes)[n] == 0
  {
    FilterCount(NamesOf(nodes), (n: string) => n in InDegrees(nodes) && InDegrees(nodes)[n] == 0, n);
    assert n in Roots(nodes) <==> multiset(Roots(nodes))[n] > 0;
    assert n in NamesOf(nodes) <==> multiset(NamesOf(nodes))[n] > 0;
  }

  lemma {:induction false} OnceCount(s: seq<string>, n: string)
    requires Once(s)
    ensures multiset(s)[n] <= 1
  {
    if s != [] {
      assert s == [s[0]] + s[1..];
      OnceCount(s[1..], n);
      assert s[0] !in s[1..];
      assert s[0] !in multiset(s[1..]);
    }
  }

  lemma {:induction false} CountOnce(s: seq<string>)
    requires forall n :: multiset(s)[n] <= 1
    ensures Once(s)
  {
    if s != [] {
      assert s == [s[0]] + s[1..];
      forall n ensures multiset(s[1..])[n] == multiset(s)[n] - if n == s[0] then 1 else 0 {
      }
      CountOnce(s[1..]);
      assert multiset(s[1..])[s[0]] == 0;
    }
  }

  lemma NextChildren(nodes: seq<Node>, name: string)
    requires name in NamesOf(nodes)
    ensures var next := ListOf(SortedChildren(nodes), name);
            (forall c :: c in next ==> c in NamesOf(nodes)) && multiset(next) == multiset(ChildrenIn(nodes, name))
  {
    var all := ChildrenIn(nodes, name);
    var next := Sort(all, StringLe);
    forall c | c in next ensures c in NamesOf(nodes) {
      assert c in multiset(next);
      assert multiset(all)[c] > 0;
      ChildrenMembers(nodes, name, c);
      NamesMembers(nodes);
    }
  }

  lemma StepDegrees(nodes: seq<Node>, s: Sweep)
    requires s.queue != [] && Consistent(nodes, s)
    ensures var next := ListOf(SortedChildren(nodes), s.queue[0]);
            && (forall c :: c in next ==> c in s.indegree)
            && Lowered(next, s.indegree).Keys == s.indegree.Keys
            && (forall n :: n in s.indegree ==> multiset(next)[n] <= s.indegree[n])
            && (forall n :: n in s.indegree ==> Lowered(next, s.indegree)[n] == s.indegree[n] - multiset(next)[n])
            && (forall n :: n in s.indegree ==>
                  Lowered(next, s.indegree)[n] == Waiting(nodes, n, NamesOf(nodes), s.out + [s.queue[0]]))
  {
    var name := s.queue[0];
    var next := ListOf(SortedChildren(nodes), name);
    HeadIsNew(s.out, s.queue);
    assert name in s.out + s.queue;
    NextChildren(nodes, name);
    LoweredCounts(next, s.indegree);
    forall n | n in s.indegree
      ensures multiset(next)[n] <= s.indegree[n]
      ensures Lowered(next, s.indegree)[n] == Waiting(nodes, n, NamesOf(nodes), s.out + [name])
    {
      WaitingStep(nodes, n, NamesOf(nodes), s.out, name);
    }
  }

  lemma HeadIsNew(out: seq<string>, queue: seq<string>)
    requires Once(out + queue) && queue != []
    ensures queue[0] !in out
  {
    assert (out + queue)[|out|] == queue[0];
    forall k | 0 <= k < |out| ensures out[k] != queue[0] {
      assert (out + queue)[k] == out[k];
    }
  }

  lemma StepConsistent(nodes: seq<Node>, s: Sweep)
    requires s.queue != [] && Consistent(nodes, s)
    ensures Consistent(nodes, Turn(SortedChildren(nodes), s))
  {
    var next := ListOf(SortedChildren(nodes), s.queue[0]);
    StepDegrees(nodes, s);
    FreedCounts(next, s.indegree);
    StepQueue(NamesOf(nodes), s, next);
  }

  /** The names in play after a turn are the ones before it and the freed ones. */
  lemma StepQueue(names: seq<string>, s: Sweep, next: seq<string>)
    requires s.queue != [] && Once(s.out + s.queue)
    requires s.indegree.Keys == (set n | n in names)
    requires forall n :: n in s.out + s.queue ==> n in names
    requires forall n :: n in names ==> (n in s.out + s.queue <==> s.indegree[n] == 0)
    requires forall c :: c in next ==> c in s.indegree
    requires forall n :: n in s.indegree ==> multiset(next)[n] <= s.indegree[n]
    requires forall n :: n in Freed(next, s.indegree) <==> n in next && s.indegree[n] == multiset(next)[n]
    requires forall n :: multiset(Freed(next, s.indegree))[n] <= 1
    ensures var now := (s.out + [s.queue[0]]) + (s.queue[1..] + Freed(next, s.indegree));
            && Once(now)
            && (forall n :: n in now ==> n in names)
            && forall n :: n in names ==> (n in now <==> s.indegree[n] - multiset(next)[n] == 0)
  {
    var freed := Freed(next, s.indegree);
    var before, now := s.out + s.queue, (s.out + [s.queue[0]]) + (s.queue[1..] + freed);
    assert now == before + freed;
    CountOnce(freed);
    forall n | n in freed ensures n !in before {
      assert n in multiset(next);
    }
    OnceConcat(before, freed);
    forall n | n in names ensures n in now <==> s.indegree[n] - multiset(next)[n] == 0 {
      assert n in now <==> n in before || n in freed;
      assert n in next <==> multiset(next)[n] > 0;
    }
  }

  lemma OnceConcat(a: seq<string>, b: seq<string>)
    requires Once(a) && Once(b) && forall n :: n in b ==> n !in a
    ensures Once(a + b)
  {
    var s := a + b;
    forall i, j | 0 <= i < j < |s| ensures s[i] != s[j] {
      if i < |a| <= j {
        assert s[j] in b && s[i] in a;
      }
    }
  }

  lemma StepOrdered(nodes: seq<Node>, s: Sweep)
    requires s.queue != [] && Consistent(nodes, s) && OutOrdered(nodes, s.out)
    ensures OutOrdered(nodes, Turn(SortedChildren(nodes), s).out)
  {
    var out' := s.out + [s.queue[0]];
    assert s.queue[0] in s.out + s.queue;
    forall k, i | 0 <= k < |out'| && 0 <= i < |nodes| && nodes[i].name == out'[k]
      ensures DoneBefore(nodes, i, out'[..k]) {
      if k < |s.out| {
        assert out'[..k] == s.out[..k];
        assert nodes[i].name == s.out[k];
      } else {
        assert out'[..k] == s.out;
        WaitingZero(nodes, nodes[i].name, NamesOf(nodes), s.out);
        PendingZero(nodes[i].dependencies, NamesOf(nodes), s.out);
      }
    }
  }

  lemma {:induction false} OnceBounded(s: seq<string>, names: seq<string>)
    requires Once(s) && forall n :: n in s ==> n in names
    ensures |s| <= |names|
  {
    if s != [] {
      assert s[0] in s;
      var k :| 0 <= k < |names| && names[k] == s[0];
      var rest := names[..k] + names[k + 1..];
      forall n | n in s[1..] ensures n in rest {
        assert n in s;
        var j :| 0 <= j < |names| && names[j] == n;
        if j < k {
          assert rest[j] == n;
        } else {
          assert rest[j - 1] == n;
        }
      }
      OnceBounded(s[1..], rest);
    }
  }

  lemma StepGood(nodes: seq<Node>, s: Sweep, s': Sweep)
    requires Good(nodes, s) && s.queue != []
    requires s' == Turn(SortedChildren(nodes), s)
    ensures Good(nodes, s') && |s'.out| == |s.out| + 1
  {
    StepConsistent(nodes, s);
    StepOrdered(nodes, s);
  }

  ghost predicate Good(nodes: seq<Node>, s: Sweep) {
    Consistent(nodes, s) && OutOrdered(nodes, s.out)
  }

  /** What every turn keeps, the loop keeps. */
  lemma {:induction false} KahnKeeps(children: map<string, seq<string>>, s: Sweep, turns: nat, keeps: Sweep -> bool)
    requires keeps(s)
    requires forall t: Sweep :: keeps(t) && t.queue != [] ==> keeps(Turn(children, t))
    ensures keeps(Kahn(children, s, turns))
    decreases turns
  {
    if s.queue != [] && turns != 0 {
      KahnKeeps(children, Turn(children, s), turns - 1, keeps);
    }
  }

  lemma {:induction false} KahnTurns(children: map<string, seq<string>>, s: Sweep, turns: nat)
    ensures Kahn(children, s, turns).queue == [] || |Kahn(children, s, turns).out| == |s.out| + turns
    decreases turns
  {
    if s.queue != [] && turns != 0 {
      KahnTurns(children, Turn(children, s), turns - 1);
    }
  }

  lemma KahnGood(nodes: seq<Node>, children: map<string, seq<string>>, start: Sweep, turns: nat)
    requires children == SortedChildren(nodes) && Good(nodes, start)
    ensures Good(nodes, Kahn(children, start, turns))
  {
    var keeps := (s: Sweep) => Good(nodes, s);
    assert keeps(start);
    forall t: Sweep | keeps(t) && t.queue != [] ensures keeps(Turn(children, t)) {
      StepGood(nodes, t, Turn(children, t));
    }
    KahnKeeps(children, start, turns, keeps);
    assert keeps(Kahn(children, start, turns));
  }

  /** The loop ends with its queue empty and its invariant kept. */
  lemma KahnEnds(nodes: seq<Node>, start: Sweep, last: Sweep)
    requires start == Sweep(InDegrees(nodes), Roots(nodes), [])
    requires last == Kahn(SortedChildren(nodes), start, |nodes|)
    ensures last.queue == [] && Good(nodes, last)
  {
    StartConsistent(nodes);
    KahnGood(nodes, SortedChildren(nodes), start, |nodes|);
    KahnTurns(SortedChildren(nodes), start, |nodes|);
    QueueDrained(nodes, last.queue, last.out);
  }

  lemma QueueDrained(nodes: seq<Node>, queue: seq<string>, out: seq<string>)
    requires Once(out + queue) && forall n :: n in out + queue ==> n in NamesOf(nodes)
    requires queue == [] || |out| == |nodes|
    ensures queue == []
  {
    NamesOnce(nodes);
    OnceBounded(out + queue, NamesOf(nodes));
  }

  // ---- distinct names ----

  lemma {:induction false} NamesDistinct(nodes: seq<Node>)
    requires DistinctNames(nodes)
    ensures |NamesOf(nodes)| == |nodes| && forall i :: 0 <= i < |nodes| ==> NamesOf(nodes)[i] == nodes[i].name
  {
    if nodes != [] {
      NamesDistinct(nodes[..|nodes| - 1]);
    }
  }

  lemma {:induction false} NamesFew(nodes: seq<Node>)
    requires !DistinctNames(nodes)
    ensures |NamesOf(nodes)| < |nodes|
  {
    var front := nodes[..|nodes| - 1];
    if DistinctNames(front) {
      NamesDistinct(front);
      var i :| 0 <= i < |front| && nodes[i].name == nodes[|nodes| - 1].name;
      assert NamesOf(front)[i] == nodes[|nodes| - 1].name;
    } else {
      NamesFew(front);
    }
  }

  lemma {:induction false} DegreeAbsent(nodes: seq<Node>, name: string, names: seq<string>)
    requires forall i :: 0 <= i < |nodes| ==> nodes[i].name != name
    ensures DegreeIn(nodes, name, names) == 0
  {
    if nodes != [] {
      DegreeAbsent(nodes[..|nodes| - 1], name, names);
    }
  }

  lemma {:induction false} DegreeOfNode(nodes: seq<Node>, i: nat, names: seq<string>)
    requires DistinctNames(nodes) && i < |nodes|
    ensures DegreeIn(nodes, nodes[i].name, names) == KnownCount(nodes[i].dependencies, names)
  {
    var n := |nodes| - 1;
    if i < n {
      DegreeOfNode(nodes[..n], i, names);
    } else {
      DegreeAbsent(nodes[..n], nodes[n].name, names);
    }
  }

  lemma {:induction false} ChildrenOfNode(nodes: seq<Node>, d: string, i: nat)
    requires DistinctNames(nodes) && i < |nodes|
    ensures multiset(ChildrenIn(nodes, d))[nodes[i].name] == multiset(nodes[i].dependencies)[d]
  {
    var front := nodes[..|nodes| - 1];
    if i < |front| {
      ChildrenOfNode(front, d, i);
    } else {
      ChildrenMembers(front, d, nodes[i].name);
    }
    ChildrenNextCount(nodes, d, i);
  }

  lemma ChildrenNextCount(nodes: seq<Node>, d: string, i: nat)
    requires DistinctNames(nodes) && i < |nodes|
    requires multiset(ChildrenIn(nodes[..|nodes| - 1], d))[nodes[i].name]
      == if i < |nodes| - 1 then multiset(nodes[i].dependencies)[d] else 0
    ensures multiset(ChildrenIn(nodes, d))[nodes[i].name] == multiset(nodes[i].dependencies)[d]
  {
    ChildrenCount(nodes, d, nodes[i].name);
  }

  // ---- soundness and completeness ----

  lemma {:induction false} OnceFull(s: seq<string>, names: seq<string>, n: string)
    requires Once(s) && |names| <= |s| && (forall x :: x in s ==> x in names) && n in names
    ensures n in s
  {
    if n !in s {
      assert Once(s + [n]);
      OnceBounded(s + [n], names);
    }
  }

  function ByName(nodes: seq<Node>): map<string, Node> {
    if nodes == [] then map[] else ByName(nodes[..|nodes| - 1])[nodes[|nodes| - 1].name := nodes[|nodes| - 1]]
  }

  lemma {:induction false} ByNameKeys(nodes: seq<Node>)
    ensures forall n :: n in ByName(nodes) <==> n in NamesOf(nodes)
    ensures forall n :: n in ByName(nodes) ==> ByName(nodes)[n].name == n && ByName(nodes)[n] in nodes
  {
    if nodes != [] {
      ByNameKeys(nodes[..|nodes| - 1]);
    }
  }

  lemma OrderKnown(nodes: seq<Node>)
    ensures Once(OrderOf(nodes)) && OutOrdered(nodes, OrderOf(nodes))
    ensures forall i :: 0 <= i < |OrderOf(nodes)| ==>
      OrderOf(nodes)[i] in NamesOf(nodes) && OrderOf(nodes)[i] in ByName(nodes)
  {
    var start := Sweep(InDegrees(nodes), Roots(nodes), []);
    var last := Kahn(SortedChildren(nodes), start, |nodes|);
    KahnEnds(nodes, start, last);
    ByNameKeys(nodes);
    assert last.out + last.queue == last.out;
  }

  /** What `topological_sort` returns; nothing stands for its error. */
  function Plan(nodes: seq<Node>): Option<seq<Node>> {
    var order, byName := OrderOf(nodes), ByName(nodes);
    OrderKnown(nodes);
    if |order| != |nodes| then None
    else Some(seq(|order|, i requires 0 <= i < |order| => byName[order[i]]))
  }

  /** The planned nodes are nodes, named in the order in which the loop put names out. */
  ghost predicate Names(nodes: seq<Node>, order: seq<string>, plan: seq<Node>) {
    && |plan| == |order|
    && forall k :: 0 <= k < |plan| ==> plan[k].name == order[k] && plan[k] in nodes && order[k] in NamesOf(nodes)
  }

  lemma PlanNames(nodes: seq<Node>) returns (order: seq<string>)
    requires Plan(nodes).Some?
    ensures order == OrderOf(nodes) && |order| == |nodes| && Names(nodes, order, Plan(nodes).value)
    ensures Once(order) && OutOrdered(nodes, order)
  {
    order := OrderOf(nodes);
    OrderKnown(nodes);
    ByNameKeys(nodes);
  }

  lemma PlanDistinct(nodes: seq<Node>, order: seq<string>, plan: seq<Node>)
    requires Names(nodes, order, plan) && Once(order) && |order| == |nodes|
    ensures DistinctNames(nodes) && DistinctNames(plan)
    ensures forall n :: n in NamesOf(nodes) ==> n in order
  {
    var names := NamesOf(nodes);
    forall n | n in order ensures n in names {
      var k :| 0 <= k < |order| && order[k] == n;
    }
    NamesOnce(nodes);
    OnceBounded(order, names);
    if !DistinctNames(nodes) {
      NamesFew(nodes);
    }
    forall n | n in names ensures n in order {
      OnceFull(order, names, n);
    }
  }

  lemma PlanMembers(nodes: seq<Node>, order: seq<string>, plan: seq<Node>)
    requires Names(nodes, order, plan) && DistinctNames(nodes)
    requires forall n :: n in NamesOf(nodes) ==> n in order
    ensures forall node :: node in plan <==> node in nodes
  {
    NamesMembers(nodes);
    forall node | node in nodes ensures node in plan {
      assert node.name in order;
      var k :| 0 <= k < |order| && order[k] == node.name;
      DistinctNode(nodes, plan[k], node);
    }
  }

  lemma PlanOrdered(nodes: seq<Node>, order: seq<string>, plan: seq<Node>)
    requires Names(nodes, order, plan) && Once(order) && OutOrdered(nodes, order)
    ensures Ordered(plan)
  {
    forall i, j | 0 <= i < |plan| && 0 <= j < |plan| && plan[j].name in plan[i].dependencies ensures j < i {
      PlanPair(nodes, order, plan, i, j);
    }
  }

  lemma DistinctNode(nodes: seq<Node>, a: Node, b: Node)
    requires DistinctNames(nodes) && a in nodes && b in nodes && a.name == b.name
    ensures a == b
  {
    var i :| 0 <= i < |nodes| && nodes[i] == a;
    var j :| 0 <= j < |nodes| && nodes[j] == b;
  }

  lemma PlanPair(nodes: seq<Node>, order: seq<string>, plan: seq<Node>, i: nat, j: nat)
    requires Once(order) && OutOrdered(nodes, order) && Names(nodes, order, plan) && i < |plan| && j < |plan|
    requires plan[j].name in plan[i].dependencies
    ensures j < i
  {
    var k :| 0 <= k < |nodes| && nodes[k] == plan[i];
    assert DoneBefore(nodes, k, order[..i]);
    var m :| 0 <= m < |order[..i]| && order[..i][m] == order[j];
    assert order[m] == order[j];
  }

  /** A list that respects dependencies leaves no room for a cycle among them. */
  lemma {:induction false} CycleDescends(plan: seq<Node>, cycle: seq<string>, k: nat) returns (first: nat, last: nat)
    requires DistinctNames(plan) && Ordered(plan) && 1 <= k < |cycle|
    requires forall i :: 0 <= i < |cycle| - 1 ==> DependsOn(plan, cycle[i], cycle[i + 1])
    ensures first < |plan| && last < |plan| && plan[first].name == cycle[0] && plan[last].name == cycle[k]
      && last < first
  {
    assert DependsOn(plan, cycle[k - 1], cycle[k - 1 + 1]);
    var i, j :| 0 <= i < |plan| && 0 <= j < |plan| && plan[i].name == cycle[k - 1]
      && cycle[k] in plan[i].dependencies && plan[j].name == cycle[k];
    if k == 1 {
      first, last := i, j;
    } else {
      var mid;
      first, mid := CycleDescends(plan, cycle, k - 1);
      assert mid == i;
      last := j;
    }
  }

  lemma OrderedAcyclic(nodes: seq<Node>, plan: seq<Node>)
    requires DistinctNames(plan) && Ordered(plan) && forall node :: node in plan <==> node in nodes
    ensures Acyclic(nodes)
  {
    forall cycle ensures !IsCycle(nodes, cycle) {
      if IsCycle(nodes, cycle) {
        forall i | 0 <= i < |cycle| - 1 ensures DependsOn(plan, cycle[i], cycle[i + 1]) {
          DependsOnSame(nodes, plan, cycle[i], cycle[i + 1]);
        }
        var first, last := CycleDescends(plan, cycle, |cycle| - 1);
        assert false;
      }
    }
  }

  lemma DependsOnSame(nodes: seq<Node>, plan: seq<Node>, user: string, used: string)
    requires DependsOn(nodes, user, used) && forall node :: node in plan <==> node in nodes
    ensures DependsOn(plan, user, used)
  {
    var i, j :| 0 <= i < |nodes| && 0 <= j < |nodes| && nodes[i].name == user
      && used in nodes[i].dependencies && nodes[j].name == used;
    assert nodes[i] in nodes && nodes[j] in nodes;
    var a :| 0 <= a < |plan| && plan[a] == nodes[i];
    var b :| 0 <= b < |plan| && plan[b] == nodes[j];
  }

  /** A node the loop never reached waits for another one it never reached. */
  lemma StuckWaits(nodes: seq<Node>, name: string) returns (d: string)
    requires name in NamesOf(nodes) && name !in OrderOf(nodes)
    ensures d in NamesOf(nodes) && d !in OrderOf(nodes) && DependsOn(nodes, name, d)
  {
    var start := Sweep(InDegrees(nodes), Roots(nodes), []);
    var last := Kahn(SortedChildren(nodes), start, |nodes|);
    KahnEnds(nodes, start, last);
    var out := last.out;
    assert out + last.queue == out;
    assert Waiting(nodes, name, NamesOf(nodes), out) != 0;
    WaitingZero(nodes, name, NamesOf(nodes), out);
    var i :| 0 <= i < |nodes| && nodes[i].name == name && Pending(nodes[i].dependencies, NamesOf(nodes), out) != 0;
    PendingZero(nodes[i].dependencies, NamesOf(nodes), out);
    d :| d in nodes[i].dependencies && d in NamesOf(nodes) && d !in out;
    NamesMembers(nodes);
  }

  ghost predicate IsPath(nodes: seq<Node>, path: seq<string>) {
    forall i :: 0 <= i < |path| - 1 ==> DependsOn(nodes, path[i], path[i + 1])
  }

  lemma PathFrom(nodes: seq<Node>, name: string, path: seq<string>)
    requires path != [] && IsPath(nodes, path) && DependsOn(nodes, name, path[0])
    ensures IsPath(nodes, [name] + path)
  {
    var longer := [name] + path;
    forall i | 0 <= i < |longer| - 1 ensures DependsOn(nodes, longer[i], longer[i + 1]) {
      if i > 0 {
        assert longer[i] == path[i - 1] && longer[i + 1] == path[i - 1 + 1];
      }
    }
  }

  lemma {:induction false} Walk(nodes: seq<Node>, name: string, n: nat) returns (path: seq<string>)
    requires name in NamesOf(nodes) && name !in OrderOf(nodes)
    ensures |path| == n + 1 && path[0] == name && IsPath(nodes, path)
    ensures forall x :: x in path ==> x in NamesOf(nodes)
    decreases n
  {
    path := [name];
    if n != 0 {
      var d := StuckWaits(nodes, name);
      var rest := Walk(nodes, d, n - 1);
      PathFrom(nodes, name, rest);
      path := [name] + rest;
    }
  }

  /** If some node is never reached there is a cycle of dependencies. */
  lemma StuckCycle(nodes: seq<Node>, name: string)
    requires name in NamesOf(nodes) && name !in OrderOf(nodes)
    ensures !Acyclic(nodes)
  {
    var path := Walk(nodes, name, |NamesOf(nodes)|);
    LongPathCycles(nodes, path);
  }

  lemma LongPathCycles(nodes: seq<Node>, path: seq<string>)
    requires IsPath(nodes, path) && |NamesOf(nodes)| < |path| && forall x :: x in path ==> x in NamesOf(nodes)
    ensures !Acyclic(nodes)
  {
    if Once(path) {
      OnceBounded(path, NamesOf(nodes));
    }
    var i, j :| 0 <= i < j < |path| && path[i] == path[j];
    var cycle := path[i..j + 1];
    forall k | 0 <= k < |cycle| - 1 ensures DependsOn(nodes, cycle[k], cycle[k + 1]) {
      assert cycle[k] == path[i + k] && cycle[k + 1] == path[i + k + 1];
    }
    assert IsCycle(nodes, cycle);
  }

  /**
    * A plan exists exactly when names are distinct and dependencies have no cycle; it has the same
    * nodes, each once, and every known dependency before its users.
    */
  lemma PlanCorrect(nodes: seq<Node>)
    ensures Plan(nodes).Some? <==> DistinctNames(nodes) && Acyclic(nodes)
    ensures Plan(nodes).Some? ==>
      && Ordered(Plan(nodes).value) && DistinctNames(Plan(nodes).value)
      && multiset(Plan(nodes).value) == multiset(nodes)
  {
    if Plan(nodes).Some? {
      var order := PlanNames(nodes);
      PlanDistinct(nodes, order, Plan(nodes).value);
      PlanMembers(nodes, order, Plan(nodes).value);
      PlanOrdered(nodes, order, Plan(nodes).value);
      OrderedAcyclic(nodes, Plan(nodes).value);
      SameDistinctNodes(Plan(nodes).value, nodes);
    } else if DistinctNames(nodes) {
      OrderKnown(nodes);
      NamesDistinct(nodes);
      var n := Missing(nodes, OrderOf(nodes));
      StuckCycle(nodes, n);
    }
  }

  lemma Missing(nodes: seq<Node>, order: seq<string>) returns (n: string)
    requires Once(order) && |order| != |NamesOf(nodes)|
    requires forall i :: 0 <= i < |order| ==> order[i] in NamesOf(nodes)
    ensures n in NamesOf(nodes) && n !in order
  {
    var names := NamesOf(nodes);
    NamesOnce(nodes);
    forall x | x in order ensures x in names {
      var i :| 0 <= i < |order| && order[i] == x;
    }
    OnceBounded(order, names);
    if forall x :: x in names ==> x in order {
      OnceBounded(names, order);
    }
    n :| n in names && n !in order;
  }

  lemma SameDistinctNodes(a: seq<Node>, b: seq<Node>)
    requires DistinctNames(a) && DistinctNames(b) && forall node :: node in a <==> node in b
    ensures multiset(a) == multiset(b)
  {
    forall node ensures multiset(a)[node] == multiset(b)[node] {
      NodeCount(a, node);
      NodeCount(b, node);
      assert node in multiset(a) <==> node in a;
      assert node in multiset(b) <==> node in b;
    }
  }

  lemma {:induction false} NodeCount(nodes: seq<Node>, node: Node)
    requires DistinctNames(nodes)
    ensures multiset(nodes)[node] <= 1
  {
    if nodes != [] {
      assert nodes == [nodes[0]] + nodes[1..];
      NodeCount(nodes[1..], node);
      if nodes[0] == node {
        assert node !in nodes[1..];
        assert node !in multiset(nodes[1..]);
      }
    }
  }
}
