/** A scope's state and outputs depend on that scope's events alone. */
module Isolation {
  import opened Sequences
  import opened Sorting
  import opened FeatureModel
  import opened Nodes
  import opened State
  import opened ScopeRuntime

  ghost predicate AllOf(events: seq<Event>, scope: Scope) {
    forall i :: 0 <= i < |events| ==> events[i].scope == scope
  }

  lemma {:induction false} RunPlanKeys(x: Inputs, nodes: seq<Node>, pass: Pass)
    requires KeysOf(pass.ema, x.event.scope) && forall k :: k in pass.ema ==> k.item.kind == "ema"
    ensures KeysOf(RunPlan(x, nodes, pass).ema, x.event.scope)
    ensures forall k :: k in RunPlan(x, nodes, pass).ema ==> k.item.kind == "ema"
  {
    if nodes != [] {
      RunPlanKeys(x, nodes[1..], AfterNode(x, nodes[0], pass));
    }
  }

  lemma ComputedTidy(cfg: Config, s: ScopeState, event: Event)
    requires Tidy(cfg.window, s, event.scope)
    ensures Tidy(cfg.window, Computed(cfg, s, event), event.scope)
  {
    RunPlanKeys(InputsFor(cfg, s, event), cfg.plan, Pass(map[], s.ema));
  }

  lemma RecordedTidy(cfg: Config, s: ScopeState, event: Event)
    requires Tidy(cfg.window, s, event.scope)
    ensures Tidy(cfg.window, Recorded(cfg, s, event), event.scope)
  {
  }

  lemma {:induction false} ReplayedTidy(cfg: Config, s: ScopeState, events: seq<Event>, scope: Scope)
    requires Tidy(cfg.window, s, scope) && AllOf(events, scope)
    ensures Tidy(cfg.window, Replayed(cfg, s, events), scope)
  {
    if events != [] {
      ReplayedTidy(cfg, s, events[..|events| - 1], scope);
      ComputedTidy(cfg, Replayed(cfg, s, events[..|events| - 1]), events[|events| - 1]);
    }
  }

  lemma SortAllOf(events: seq<Event>, scope: Scope)
    requires AllOf(events, scope)
    ensures AllOf(Sort(events, EventLe), scope)
  {
    var sorted := Sort(events, EventLe);
    SortMembers(events, EventLe);
    forall i | 0 <= i < |sorted| ensures sorted[i].scope == scope {
      assert sorted[i] in sorted;
    }
  }

  lemma {:induction false} OnlyAllOf(scope: Scope, events: seq<Event>)
    ensures AllOf(Only(scope, events), scope)
  {
    var kept := Only(scope, events);
    forall i | 0 <= i < |kept| ensures kept[i].scope == scope {
      FilterMembers(events, (e: Event) => e.scope == scope, kept[i]);
    }
  }

  lemma UpdatedTidy(cfg: Config, policy: Policy, s: ScopeState, logged: Option<seq<Event>>, event: Event)
    requires Tidy(cfg.window, s, event.scope)
    requires logged.Some? ==> AllOf(logged.value, event.scope)
    ensures Tidy(cfg.window, Updated(cfg, policy, s, logged, event), event.scope)
  {
    if Late(s, event) && policy.Recompute? {
      var source := ReplaySource(s, logged, event);
      SortAllOf(source, event.scope);
      var sorted := Sort(source, EventLe);
      var start := EMPTY.(recent := LastN(sorted, LogCap(cfg)));
      assert Tidy(cfg.window, start, event.scope);
      ReplayedTidy(cfg, start, sorted, event.scope);
    } else {
      RecordedTidy(cfg, s, event);
      ComputedTidy(cfg, Recorded(cfg, s, event), event);
    }
  }

  lemma LoggedAllOf(journal: Option<seq<Event>>, scope: Scope)
    ensures LoggedFor(journal, scope).Some? ==> AllOf(LoggedFor(journal, scope).value, scope)
  {
    if journal.Some? {
      OnlyAllOf(scope, journal.value);
      SortAllOf(Only(scope, journal.value), scope);
    }
  }

  ghost predicate Sound(cfg: Config, e: Engine) {
    cfg.window == e.tables.window && Bounded(e.tables)
  }

  lemma StepView(cfg: Config, policy: Policy, e: Engine, event: Event, scope: Scope)
    requires Sound(cfg, e)
    ensures Sound(cfg, Step(cfg, policy, e, event))
    ensures ViewOf(Step(cfg, policy, e, event).tables, scope) ==
      if scope == event.scope
      then Updated(cfg, policy, ViewOf(e.tables, scope), LoggedFor(JournalAfter(e, event), scope), event)
      else ViewOf(e.tables, scope)
  {
    var s := ViewOf(e.tables, event.scope);
    var logged := LoggedFor(JournalAfter(e, event), event.scope);
    LoggedAllOf(JournalAfter(e, event), event.scope);
    assert InBounds(e.tables, event.scope);
    UpdatedTidy(cfg, policy, s, logged, event);
    ViewPut(e.tables, event.scope, Updated(cfg, policy, s, logged, event), scope);
    BoundedPut(e.tables, event.scope, Updated(cfg, policy, s, logged, event));
  }

  /** Every reachable state keeps its queues within their bounds. */
  lemma {:induction false} RunSound(cfg: Config, policy: Policy, e: Engine, events: seq<Event>)
    requires Sound(cfg, e)
    ensures Sound(cfg, Run(cfg, policy, e, events))
  {
    if events != [] {
      RunSound(cfg, policy, e, events[..|events| - 1]);
      StepView(cfg, policy, Run(cfg, policy, e, events[..|events| - 1]), events[|events| - 1], "");
    }
  }

  ghost predicate LogWithin(cfg: Config, t: Tables, scope: Scope) {
    |ViewOf(t, scope).recent| <= LogCap(cfg)
  }

  lemma {:induction false} ReplayedLog(cfg: Config, s: ScopeState, events: seq<Event>)
    ensures Replayed(cfg, s, events).recent == s.recent
  {
    if events != [] {
      ReplayedLog(cfg, s, events[..|events| - 1]);
    }
  }

  lemma UpdatedLog(cfg: Config, policy: Policy, s: ScopeState, logged: Option<seq<Event>>, event: Event)
    requires |s.recent| <= LogCap(cfg)
    ensures |Updated(cfg, policy, s, logged, event).recent| <= LogCap(cfg)
  {
    var sorted := Sort(ReplaySource(s, logged, event), EventLe);
    ReplayedLog(cfg, EMPTY.(recent := LastN(sorted, LogCap(cfg))), sorted);
  }

  /** No scope's log of recent events ever outgrows its bound. */
  lemma {:induction false} RunLogsBounded(cfg: Config, policy: Policy, e: Engine, events: seq<Event>)
    requires Sound(cfg, e) && forall scope :: LogWithin(cfg, e.tables, scope)
    ensures forall scope :: LogWithin(cfg, Run(cfg, policy, e, events).tables, scope)
  {
    if events != [] {
      var front, last := events[..|events| - 1], events[|events| - 1];
      RunLogsBounded(cfg, policy, e, front);
      RunSound(cfg, policy, e, front);
      var before := Run(cfg, policy, e, front);
      forall scope ensures LogWithin(cfg, Run(cfg, policy, e, events).tables, scope) {
        assert LogWithin(cfg, before.tables, scope);
        StepView(cfg, policy, before, last, scope);
        UpdatedLog(cfg, policy, ViewOf(before.tables, scope), LoggedFor(JournalAfter(before, last), scope), last);
      }
    }
  }

  ghost predicate SameFor(scope: Scope, a: Engine, b: Engine) {
    && ViewOf(a.tables, scope) == ViewOf(b.tables, scope)
    && (a.journal.Some? <==> b.journal.Some?)
    && (a.journal.Some? ==> Only(scope, a.journal.value) == Only(scope, b.journal.value))
  }

  lemma JournaledOnly(rows: seq<Event>, event: Event, scope: Scope)
    ensures Only(scope, Journaled(rows, event)) ==
      if scope == event.scope then Journaled(Only(scope, rows), event) else Only(scope, rows)
  {
    var own := (e: Event) => e.scope == scope;
    FilterMembers(rows, own, event);
    FilterAppend(rows, [event], own);
    assert [event][1..] == [];
  }

  lemma JournalSameFor(scope: Scope, a: Engine, b: Engine, event: Event)
    requires SameFor(scope, a, b)
    ensures LoggedFor(JournalAfter(a, event), scope) == LoggedFor(JournalAfter(b, event), scope)
    ensures a.journal.Some? ==>
      Only(scope, JournalAfter(a, event).value) == Only(scope, JournalAfter(b, event).value)
  {
    if a.journal.Some? {
      JournaledOnly(a.journal.value, event, scope);
      JournaledOnly(b.journal.value, event, scope);
    }
  }

  lemma OwnStep(cfg: Config, policy: Policy, scope: Scope, a: Engine, b: Engine, event: Event)
    requires Sound(cfg, a) && Sound(cfg, b) && SameFor(scope, a, b) && event.scope == scope
    ensures SameFor(scope, Step(cfg, policy, a, event), Step(cfg, policy, b, event))
    ensures StepOutput(cfg, policy, a, event) == StepOutput(cfg, policy, b, event)
  {
    JournalSameFor(scope, a, b, event);
    StepView(cfg, policy, a, event, scope);
    StepView(cfg, policy, b, event, scope);
  }

  lemma ForeignStep(cfg: Config, policy: Policy, scope: Scope, a: Engine, b: Engine, event: Event)
    requires Sound(cfg, a) && SameFor(scope, a, b) && event.scope != scope
    ensures SameFor(scope, Step(cfg, policy, a, event), b)
  {
    StepView(cfg, policy, a, event, scope);
    if a.journal.Some? {
      JournaledOnly(a.journal.value, event, scope);
    }
  }

  /** The outputs that belong to one scope's events. */
  function OutputsOf(scope: Scope, events: seq<Event>, outputs: seq<Option<Vector>>): seq<Option<Vector>>
    requires |events| == |outputs|
  {
    if events == [] then []
    else
      var n := |events| - 1;
      var front := OutputsOf(scope, events[..n], outputs[..n]);
      if events[n].scope == scope then front + [outputs[n]] else front
  }

  lemma OnlyLast(scope: Scope, events: seq<Event>)
    requires events != []
    ensures Only(scope, events) == Only(scope, events[..|events| - 1])
                                   + if events[|events| - 1].scope == scope then [events[|events| - 1]] else []
  {
    var front, last := events[..|events| - 1], [events[|events| - 1]];
    assert events == front + last;
    FilterAppend(front, last, (e: Event) => e.scope == scope);
    assert last[1..] == [];
  }

  /**
    * Over any interleaving and under every policy, what a scope ends up with and what its events
    * yield is what running only its events gives.
    */
  lemma {:induction false} ScopeIsolation(cfg: Config, policy: Policy, e: Engine, events: seq<Event>, scope: Scope)
    requires Sound(cfg, e)
    ensures SameFor(scope, Run(cfg, policy, e, events), Run(cfg, policy, e, Only(scope, events)))
    ensures OutputsOf(scope, events, RunOutputs(cfg, policy, e, events))
      == RunOutputs(cfg, policy, e, Only(scope, events))
  {
    if events != [] {
      var n := |events| - 1;
      var front, last := events[..n], events[n];
      ScopeIsolation(cfg, policy, e, front, scope);
      OnlyLast(scope, events);
      RunSound(cfg, policy, e, front);
      RunSound(cfg, policy, e, Only(scope, front));
      var a, b := Run(cfg, policy, e, front), Run(cfg, policy, e, Only(scope, front));
      assert RunOutputs(cfg, policy, e, events)[..n] == RunOutputs(cfg, policy, e, front);
      if last.scope == scope {
        OwnStep(cfg, policy, scope, a, b, last);
        assert Only(scope, events)[..|Only(scope, events)| - 1] == Only(scope, front);
      } else {
        ForeignStep(cfg, policy, scope, a, b, last);
        assert Only(scope, events) == Only(scope, front);
      }
    }
  }
}
