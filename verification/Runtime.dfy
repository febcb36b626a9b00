/** The streaming engine and its journal (`runtime.py`, `event_journal.py`). */
module Runtime {
  import opened Sequences
  import opened Sorting
  import opened FeatureModel
  import opened Nodes
  import opened State
  import opened ScopeRuntime
  import opened Isolation
  import opened StateStore
  import Dag
  import DagSort

  class FeatureEventJournal {
    var rows: seq<Event>

    constructor ()
      ensures rows == []
    {
      rows := [];
    }

    method Append(event: Event)
      modifies this
      ensures rows == Journaled(old(rows), event)
      ensures rows == if event in old(rows) then old(rows) else old(rows) + [event]
    {
      if event !in rows {
        rows := rows + [event];
      }
    }

    /** The journaled events of a scope, each as often as it is journaled, oldest first. */
    method LoadScopeEvents(scope: Scope) returns (events: seq<Event>)
      ensures forall i, j :: 0 <= i < j < |events| ==>
        events[i].availableTs < events[j].availableTs
        || (events[i].availableTs == events[j].availableTs && events[i].eventTs <= events[j].eventTs)
      ensures forall e :: multiset(events)[e] == if e.scope == scope then multiset(rows)[e] else 0
      ensures events == LoadScope(rows, scope)
    {
      events := Sort(Only(scope, rows), EventLe);
      EventOrder();
      SortSorted(Only(scope, rows), EventLe);
      forall e ensures multiset(events)[e] == if e.scope == scope then multiset(rows)[e] else 0 {
        FilterCount(rows, (o: Event) => o.scope == scope, e);
      }
    }
  }

  /** The tables differ at most in what they hold for `scope`. */
  ghost predicate SameOutside(a: Tables, b: Tables, scope: Scope) {
    && a.window == b.window
    && a.prices - {scope} == b.prices - {scope}
    && a.previous - {scope} == b.previous - {scope}
    && Without(a.agg, scope) == Without(b.agg, scope)
    && a.watermarks - {scope} == b.watermarks - {scope}
    && a.recent - {scope} == b.recent - {scope}
    && Without(a.history, scope) == Without(b.history, scope)
  }

  lemma PutSame<V>(a: map<Scope, V>, b: map<Scope, V>, scope: Scope, v: V)
    requires a - {scope} == b - {scope}
    ensures a[scope := v] == b[scope := v]
  {
    forall s ensures (s in a && s != scope) <==> (s in b && s != scope) {
      assert s in a - {scope} <==> s in b - {scope};
    }
    forall s | s in a && s != scope ensures a[s] == b[s] {
      assert a[s] == (a - {scope})[s] == (b - {scope})[s];
    }
  }

  lemma PutOutside(a: Tables, b: Tables, scope: Scope, s: ScopeState)
    requires SameOutside(a, b, scope)
    ensures PutScope(a, scope, s) == PutScope(b, scope, s)
  {
    PutSame(a.prices, b.prices, scope, s.prices);
    PutSame(a.recent, b.recent, scope, s.recent);
    if s.previous.Some? {
      PutSame(a.previous, b.previous, scope, s.previous.value);
    }
    if s.watermark.Some? {
      PutSame(a.watermarks, b.watermarks, scope, s.watermark.value);
    }
  }

  lemma AppendHistoryNext(history: Histories, scope: Scope, done: map<string, real>, name: string, value: real)
    requires name !in done && KeysOf(history, scope)
    ensures var h := AppendHistory(history, scope, done);
            AppendHistory(history, scope, done[name := value])
              == h[Key(scope, name) := LastN(HistoryOf(h, scope, name) + [value], HISTORY_LIMIT)]
  {
  }

  lemma AppendValueStep(all: Histories, scope: Scope, done: map<string, real>, name: string, value: real,
                        history: Histories)
    requires name !in done && history == Splice(all, scope, AppendHistory(Slice(all, scope), scope, done))
    ensures history[Key(scope, name) := LastN(HistoryOf(history, scope, name) + [value], HISTORY_LIMIT)]
         == Splice(all, scope, AppendHistory(Slice(all, scope), scope, done[name := value]))
  {
    var own := Slice(all, scope);
    var h := AppendHistory(own, scope, done);
    assert KeysOf(h, scope);
    SliceSplice(all, scope, h, scope);
    assert HistoryOf(history, scope, name) == HistoryOf(h, scope, name) by {
      HistoryOfSlice(history, scope, name);
    }
    AppendHistoryNext(own, scope, done, name, value);
    SpliceUpdate(all, scope, h, Key(scope, name), LastN(HistoryOf(h, scope, name) + [value], HISTORY_LIMIT));
  }

  lemma HistoryOfSlice(history: Histories, scope: Scope, name: string)
    ensures HistoryOf(history, scope, name) == HistoryOf(Slice(history, scope), scope, name)
  {
  }

  class FeatureRuntimeEngine {
    const num: Numerics
    const setName: string
    const setVersion: string
    const plan: seq<Node>
    const policy: Policy
    const journal: FeatureEventJournal?
    var state: RuntimeStateStore
    var eventsIn: nat
    var featuresOut: nat
    var transformErrors: nat

    /** The window in force is that of the current state, which a restore may replace. */
    ghost function Conf(): Config
      reads this`state
    {
      Config(num, setName, setVersion, state.effectiveWindow, plan)
    }

    ghost function Value(): Engine
      reads this, state, journal
    {
      Engine(state.Value(), if journal == null then None else Some(journal.rows))
    }

    ghost predicate Valid()
      reads this, state, journal
    {
      Sound(Conf(), Value())
    }

    /** An engine for nodes already put in order. */
    constructor Planned(num: Numerics, features: FeatureSet, plan: seq<Node>, policy: Policy,
                        journal: FeatureEventJournal?)
      ensures Conf() == Config(num, features.name, features.version, EffectiveWindow(features.windows), plan)
      ensures this.policy == policy && this.journal == journal
      ensures fresh(state) && state.Value() == EmptyTables(EffectiveWindow(features.windows))
      ensures Valid() && eventsIn == featuresOut == transformErrors == 0
    {
      this.num, setName, setVersion := num, features.name, features.version;
      this.plan, this.policy, this.journal := plan, policy, journal;
      eventsIn, featuresOut, transformErrors := 0, 0, 0;
      state := new RuntimeStateStore(EffectiveWindow(features.windows));
      new;
      EmptySound(Conf(), Value());
    }

    /** Nothing comes back when the nodes cannot be ordered. */
    static method Create(num: Numerics, features: FeatureSet, policy: Policy, journal: FeatureEventJournal?)
      returns (engine: FeatureRuntimeEngine?)
      ensures engine == null <==> Dag.Plan(features.nodes).None?
      ensures engine != null ==>
        && fresh(engine) && fresh(engine.state) && engine.Valid()
        && engine.Conf() == ConfigOf(num, features) && engine.policy == policy && engine.journal == journal
        && engine.state.Value() == EmptyTables(EffectiveWindow(features.windows))
      ensures engine != null ==>
        var w := engine.state.effectiveWindow;
        if features.windows == [] then w == 5 else w in features.windows && forall x :: x in features.windows ==> x <= w
    {
      var sorted := DagSort.TopologicalSort(features.nodes);
      if sorted.None? {
        return null;
      }
      engine := new FeatureRuntimeEngine.Planned(num, features, sorted.value, policy, journal);
    }

    method TruncateRecentEvents(scope: Scope)
      requires scope in state.recentEvents
      modifies state`recentEvents
      ensures state.recentEvents
        == old(state.recentEvents)[scope := LastN(old(state.recentEvents)[scope], LogCap(Conf()))]
      ensures |state.recentEvents[scope]| <= 4 * state.effectiveWindow || |state.recentEvents[scope]| <= 32
      ensures |old(state.recentEvents)[scope]| <= 4 * state.effectiveWindow || |old(state.recentEvents)[scope]| <= 32
        ==> state.recentEvents == old(state.recentEvents)
    {
      var maxRecent := if state.effectiveWindow * 4 < 32 then 32 else state.effectiveWindow * 4;
      var recent := state.recentEvents[scope];
      if |recent| > maxRecent {
        state.recentEvents := state.recentEvents[scope := recent[|recent| - maxRecent..]];
      }
    }

    /** Run the planned nodes over one event; the EMA states of its scope move along. */
    method ComputeNodes(x: Inputs) returns (values: map<string, real>)
      requires KeysOf(Slice(state.aggState, x.event.scope), x.event.scope)
      modifies state`aggState
      ensures var before := Slice(old(state.aggState), x.event.scope);
              var pass := RunPlan(x, plan, Pass(map[], before));
              values == pass.values && state.aggState == Splice(old(state.aggState), x.event.scope, pass.ema)
    {
      var scope := x.event.scope;
      ghost var agg0 := state.aggState;
      ghost var goal := RunPlan(x, plan, Pass(map[], Slice(agg0, scope)));
      ghost var ema := Slice(agg0, scope);
      values := map[];
      SpliceSlice(agg0, scope);
      for i := 0 to |plan|
        invariant RunPlan(x, plan[i..], Pass(values, ema)) == goal
        invariant KeysOf(ema, scope) && state.aggState == Splice(agg0, scope, ema)
      {
        SliceSplice(agg0, scope, ema, scope);
        var computed := Compute(x, plan[i], values, Slice(state.aggState, scope));
        assert plan[i..][1..] == plan[i + 1..];
        if computed.value.Some? {
          values := values[plan[i].output := computed.value.value];
        }
        SpliceSplice(agg0, scope, ema, computed.ema);
        state.aggState := Splice(state.aggState, scope, computed.ema);
        ema := computed.ema;
      }
    }

    /** Append the emitted values to the histories of their names. */
    method AppendValues(scope: Scope, values: map<string, real>)
      modifies state`nodeHistory
      ensures state.nodeHistory
           == Splice(old(state.nodeHistory), scope, AppendHistory(Slice(old(state.nodeHistory), scope), scope, values))
    {
      ghost var all := state.nodeHistory;
      ghost var done: map<string, real> := map[];
      var todo := values.Keys;
      SpliceSlice(all, scope);
      assert AppendHistory(Slice(all, scope), scope, done) == Slice(all, scope);
      while todo != {}
        invariant todo <= values.Keys && done == map n | n in values && n !in todo :: values[n]
        invariant state.nodeHistory == Splice(all, scope, AppendHistory(Slice(all, scope), scope, done))
        decreases todo
      {
        var name :| name in todo;
        AppendValueStep(all, scope, done, name, values[name], state.nodeHistory);
        var longer := LastN(HistoryOf(state.nodeHistory, scope, name) + [values[name]], HISTORY_LIMIT);
        state.nodeHistory := state.nodeHistory[Key(scope, name) := longer];
        done := done[name := values[name]];
        todo := todo - {name};
      }
      assert done == values;
    }

    /** One event computed on the state of its scope, and logged first if asked. */
    method ComputeFromEvent(event: Event, recordEvent: bool, ghost start: ScopeState) returns (fv: Vector)
      requires Valid() && (recordEvent || event.scope in state.recentEvents)
      requires start == StartOf(Conf(), ViewOf(state.Value(), event.scope), event, recordEvent)
      modifies state
      ensures Valid() && Conf() == old(Conf())
      ensures state.Value() == PutScope(old(state.Value()), event.scope, Computed(Conf(), start, event))
      ensures fv == Emitted(Conf(), start, event)
    {
      ghost var t, cfg := state.Value(), Conf();
      PushPrice(event, recordEvent);
      assert state.recentEvents == t.recent[event.scope := start.recent];
      var scope := event.scope;
      var x := Inputs(num, event, state.prices[scope], Lookup(state.previousPrice, scope),
        Slice(state.nodeHistory, scope));
      var values := ComputeNodes(x);
      AppendValues(scope, values);
      fv := Vector(scope, event.symbol, event.eventTs, event.availableTs, event.availableTs, values, setName,
        setVersion, "");
      if event.price > 0.0 {
        state.previousPrice := state.previousPrice[scope := event.price];
      }
      state.watermarks := state.watermarks[scope := event.availableTs];
      Assembled(cfg, t, state.Value(), event, recordEvent, start);
    }

    method PushPrice(event: Event, recordEvent: bool)
      modifies state`prices, state`recentEvents
      ensures var s := ViewOf(old(state.Value()), event.scope);
              && state.prices == old(state.prices)
                 [event.scope := LastN(s.prices + [event.price], state.effectiveWindow)]
              && state.recentEvents == if recordEvent
                 then old(state.recentEvents)[event.scope := Recorded(Conf(), s, event).recent]
                 else old(state.recentEvents)
    {
      var scope := event.scope;
      var queue := if scope in state.prices then state.prices[scope] else [];
      state.prices := state.prices[scope := LastN(queue + [event.price], state.effectiveWindow)];
      if recordEvent {
        var recent := if scope in state.recentEvents then state.recentEvents[scope] else [];
        state.recentEvents := state.recentEvents[scope := recent + [event]];
        TruncateRecentEvents(scope);
      }
    }

    /** Rebuild a scope from its journaled events, or from the recent ones without a journal. */
    method RecomputeScope(scope: Scope, ghost source: seq<Event>) returns (out: seq<Vector>)
      requires Valid() && source != [] && AllOf(source, scope)
      requires source == if journal == null then ViewOf(state.Value(), scope).recent else LoadScope(journal.rows, scope)
      modifies state
      ensures Valid() && Conf() == old(Conf())
      ensures state.Value() == PutScope(old(state.Value()), scope, Rebuilt(Conf(), source))
      ensures out != [] && RebuiltVector(Conf(), source) == Some(out[|out| - 1])
    {
      ghost var t, cfg := state.Value(), Conf();
      var events := KnownEvents(scope);
      events := Sort(events, EventLe);
      SortAllOf(source, scope);
      ghost var start := EMPTY.(recent := LastN(events, LogCap(cfg)));
      Rewind(scope, events, start);
      out := ReplayEvents(scope, events, t, start);
      RebuiltIs(cfg, source, events, start);
    }

    method KnownEvents(scope: Scope) returns (events: seq<Event>)
      ensures events == if journal == null then ViewOf(state.Value(), scope).recent else LoadScope(journal.rows, scope)
    {
      if journal != null {
        events := journal.LoadScopeEvents(scope);
      } else {
        events := if scope in state.recentEvents then state.recentEvents[scope] else [];
      }
    }

    /** Forget the scope, then log the tail of what it will be replayed with. */
    method Rewind(scope: Scope, events: seq<Event>, ghost start: ScopeState)
      requires Valid() && AllOf(events, scope) && start == EMPTY.(recent := LastN(events, LogCap(Conf())))
      modifies state
      ensures Valid() && Conf() == old(Conf())
      ensures scope in state.recentEvents && ReachedBy(old(state.Value()), state.Value(), scope, true, start)
    {
      ghost var t := state.Value();
      state.ResetScope(scope);
      state.recentEvents := state.recentEvents[scope := events];
      TruncateRecentEvents(scope);
      ResetOutside(t, state.Value(), scope, start);
    }

    method ReplayEvents(scope: Scope, events: seq<Event>, ghost t: Tables, ghost start: ScopeState)
      returns (out: seq<Vector>)
      requires Valid() && AllOf(events, scope) && events != []
      requires scope in state.recentEvents && ReachedBy(t, state.Value(), scope, true, start)
      modifies state
      ensures Valid() && Conf() == old(Conf())
      ensures state.Value() == PutScope(t, scope, Replayed(Conf(), start, events))
      ensures out != []
      ensures out[|out| - 1] == Emitted(Conf(), Replayed(Conf(), start, events[..|events| - 1]), events[|events| - 1])
    {
      ghost var cfg := Conf();
      ghost var s := start;
      out := [];
      assert events[..0] == [];
      for i := 0 to |events|
        invariant Valid() && Conf() == cfg && scope in state.recentEvents && |out| == i
        invariant s == Replayed(cfg, start, events[..i]) && ReachedBy(t, state.Value(), scope, i == 0, s)
        invariant 0 < i ==> out[i - 1] == Emitted(cfg, Replayed(cfg, start, events[..i - 1]), events[i - 1])
      {
        ghost var before := state.Value();
        var fv := ComputeFromEvent(events[i], false, s);
        out := out + [fv];
        ReplayedNext(cfg, start, events, i);
        ghost var s' := Computed(cfg, s, events[i]);
        ReplayStep(cfg, t, before, state.Value(), scope, i == 0, s, s', events[i]);
        s := s';
      }
      TakeAll(events);
    }

    method Update(event: Event) returns (fv: Option<Vector>)
      requires Valid()
      modifies this`eventsIn, this`featuresOut, this`transformErrors, state, journal
      ensures Valid() && Conf() == old(Conf())
      ensures Value() == Step(Conf(), policy, old(Value()), event)
      ensures fv == StepOutput(Conf(), policy, old(Value()), event)
      ensures eventsIn == old(eventsIn) + 1
      ensures featuresOut == old(featuresOut) + if fv.Some? then 1 else 0
      ensures transformErrors == old(transformErrors) + if fv.None? then 1 else 0
    {
      ghost var e, cfg := Value(), Conf();
      eventsIn := eventsIn + 1;
      LogArrival(event);
      var watermark := Lookup(state.watermarks, event.scope);
      if watermark.Some? && event.availableTs < watermark.value {
        if policy.Reject? {
          transformErrors := transformErrors + 1;
          StepRejected(cfg, e, event);
          return None;
        }
        if policy.Recompute? {
          fv := UpdateLate(event, e);
          featuresOut := featuresOut + 1;
          return;
        }
      }
      fv := UpdateTaken(event, e);
      featuresOut := featuresOut + 1;
    }

    method LogArrival(event: Event)
      requires Valid()
      modifies journal
      ensures Value() == Engine(old(Value()).tables, JournalAfter(old(Value()), event))
    {
      if journal != null {
        journal.Append(event);
      }
    }

    /** The branch of `Update` for an event that is not late, or late under policy "accept". */
    method UpdateTaken(event: Event, ghost e: Engine) returns (fv: Option<Vector>)
      requires Valid() && (!Late(ViewOf(e.tables, event.scope), event) || policy.Accept?)
      requires state.Value() == e.tables && Value().journal == JournalAfter(e, event)
      modifies state
      ensures Valid() && Conf() == old(Conf())
      ensures Value() == Step(Conf(), policy, e, event)
      ensures fv == StepOutput(Conf(), policy, e, event) && fv.Some?
    {
      StepTaken(Conf(), policy, e, event);
      var computed := ComputeFromEvent(event, true, Recorded(Conf(), ViewOf(e.tables, event.scope), event));
      fv := Some(computed);
    }

    /** The branch of `Update` for a late event under policy "recompute". */
    method UpdateLate(event: Event, ghost e: Engine) returns (fv: Option<Vector>)
      requires Valid() && policy.Recompute? && Late(ViewOf(e.tables, event.scope), event)
      requires state.Value() == e.tables && Value().journal == JournalAfter(e, event)
      modifies state
      ensures Valid() && Conf() == old(Conf())
      ensures Value() == Step(Conf(), policy, e, event)
      ensures fv == StepOutput(Conf(), policy, e, event) && fv.Some?
    {
      ghost var cfg := Conf();
      ghost var source := LateSource(e, event);
      if journal == null {
        var recent := if event.scope in state.recentEvents then state.recentEvents[event.scope] else [];
        state.recentEvents := state.recentEvents[event.scope := recent + [event]];
      }
      ghost var t := state.Value();
      SourceIsOwn(e, event, t);
      var recomputed := RecomputeScope(event.scope, source);
      LateStep(cfg, e, event, t, state.Value());
      fv := Some(recomputed[|recomputed| - 1]);
    }

    method UpdateBatch(events: seq<Event>) returns (out: seq<Vector>)
      requires Valid()
      modifies this`eventsIn, this`featuresOut, this`transformErrors, state, journal
      ensures Valid() && Conf() == old(Conf())
      ensures Value() == Run(Conf(), policy, old(Value()), events)
      ensures out == Present(RunOutputs(Conf(), policy, old(Value()), events))
    {
      ghost var e, cfg := Value(), Conf();
      ghost var raw: seq<Option<Vector>> := [];
      out := [];
      for i := 0 to |events|
        invariant Valid() && Conf() == cfg && |raw| == i
        invariant Reached(cfg, policy, e, events, Value(), raw) && out == Present(raw)
      {
        ghost var before := Value();
        var fv := Update(events[i]);
        ReachedNext(cfg, policy, e, events, before, raw, fv);
        PresentNext(raw, fv);
        raw := raw + [fv];
        if fv.Some? {
          out := out + [fv.value];
        }
      }
      ReachedAll(cfg, policy, e, events, Value(), raw);
    }

    method RestoreState(restored: RuntimeStateStore)
      requires Bounded(restored.Value())
      modifies this`state
      ensures state == restored && Valid()
    {
      state := restored;
    }
  }

  /** The engine after the first events, and what it answered to them. */
  ghost predicate Reached(cfg: Config, policy: Policy, e: Engine, events: seq<Event>, now: Engine,
                          raw: seq<Option<Vector>>) {
    && |raw| <= |events|
    && now == Run(cfg, policy, e, events[..|raw|])
    && raw == RunOutputs(cfg, policy, e, events[..|raw|])
  }

  lemma ReachedNext(cfg: Config, policy: Policy, e: Engine, events: seq<Event>, now: Engine,
                    raw: seq<Option<Vector>>, fv: Option<Vector>)
    requires Reached(cfg, policy, e, events, now, raw) && |raw| < |events|
    requires fv == StepOutput(cfg, policy, now, events[|raw|])
    ensures Reached(cfg, policy, e, events, Step(cfg, policy, now, events[|raw|]), raw + [fv])
  {
    var n := |raw|;
    RunNext(cfg, policy, e, events, n);
    assert |raw + [fv]| == n + 1;
  }

  lemma ReachedAll(cfg: Config, policy: Policy, e: Engine, events: seq<Event>, now: Engine, raw: seq<Option<Vector>>)
    requires Reached(cfg, policy, e, events, now, raw) && |raw| == |events|
    ensures raw == RunOutputs(cfg, policy, e, events) && now == Run(cfg, policy, e, events)
  {
    TakeAll(events);
  }

  function StartOf(cfg: Config, s: ScopeState, event: Event, recordEvent: bool): ScopeState {
    if recordEvent then Recorded(cfg, s, event) else s
  }

  /** Writing the parts of a computed event into the dictionaries writes its scope. */
  lemma Assembled(cfg: Config, t: Tables, t': Tables, event: Event, recordEvent: bool, start: ScopeState)
    requires cfg.window == t.window == t'.window && Bounded(t)
    requires start == StartOf(cfg, ViewOf(t, event.scope), event, recordEvent)
    requires t'.prices == t.prices[event.scope := LastN(start.prices + [event.price], cfg.window)]
    requires t'.previous == if event.price > 0.0 then t.previous[event.scope := event.price] else t.previous
    requires t'.watermarks == t.watermarks[event.scope := event.availableTs]
    requires t'.recent == t.recent[event.scope := start.recent]
    requires t'.agg == Splice(t.agg, event.scope, PassFor(cfg, start, event).ema)
    requires t'.history == Splice(t.history, event.scope,
      AppendHistory(start.history, event.scope, PassFor(cfg, start, event).values))
    ensures t' == PutScope(t, event.scope, Computed(cfg, start, event)) && Bounded(t')
  {
    AssembledTidy(cfg, t, event, recordEvent, start);
    PutLookup(t.previous, event.scope);
    assert t' == PutScope(t, event.scope, Computed(cfg, start, event));
    BoundedPut(t, event.scope, Computed(cfg, start, event));
  }

  lemma AssembledTidy(cfg: Config, t: Tables, event: Event, recordEvent: bool, start: ScopeState)
    requires cfg.window == t.window && Bounded(t)
    requires start == StartOf(cfg, ViewOf(t, event.scope), event, recordEvent)
    ensures Tidy(cfg.window, Computed(cfg, start, event), event.scope)
  {
    assert InBounds(t, event.scope);
    StartTidy(cfg, ViewOf(t, event.scope), event, recordEvent);
    ComputedTidy(cfg, start, event);
  }

  lemma RebuiltIs(cfg: Config, source: seq<Event>, events: seq<Event>, start: ScopeState)
    requires source != [] && events == Sort(source, EventLe) && start == EMPTY.(recent := LastN(events, LogCap(cfg)))
    ensures Rebuilt(cfg, source) == Replayed(cfg, start, events)
    ensures RebuiltVector(cfg, source)
         == Some(Emitted(cfg, Replayed(cfg, start, events[..|events| - 1]), events[|events| - 1]))
  {
  }

  lemma StepRejected(cfg: Config, e: Engine, event: Event)
    requires Late(ViewOf(e.tables, event.scope), event)
    ensures Step(cfg, Reject, e, event) == Engine(e.tables, JournalAfter(e, event))
    ensures StepOutput(cfg, Reject, e, event) == None
  {
  }

  lemma StepTaken(cfg: Config, policy: Policy, e: Engine, event: Event)
    requires !Late(ViewOf(e.tables, event.scope), event) || policy.Accept?
    ensures var s := ViewOf(e.tables, event.scope);
            && Step(cfg, policy, e, event)
                 == Engine(PutScope(e.tables, event.scope, Computed(cfg, Recorded(cfg, s, event), event)),
                   JournalAfter(e, event))
            && StepOutput(cfg, policy, e, event) == Some(Emitted(cfg, Recorded(cfg, s, event), event))
  {
  }

  /** What a late event is replayed with. */
  function LateSource(e: Engine, event: Event): seq<Event> {
    ReplaySource(ViewOf(e.tables, event.scope), LoggedFor(JournalAfter(e, event), event.scope), event)
  }

  /** The tables a late event is replayed on: without a journal it has been logged as recent. */
  function LateTables(e: Engine, event: Event): Tables {
    if e.journal.Some? then e.tables
    else e.tables.(recent := e.tables.recent[event.scope := ViewOf(e.tables, event.scope).recent + [event]])
  }

  /** What a late event is replayed with is its scope's own. */
  lemma SourceIsOwn(e: Engine, event: Event, t: Tables)
    requires Bounded(e.tables)
    requires t == LateTables(e, event)
    ensures var source := LateSource(e, event);
            && source != [] && AllOf(source, event.scope) && Bounded(t)
            && (e.journal.None? ==> ViewOf(t, event.scope).recent == source)
  {
    if e.journal.Some? {
      LoggedAllOf(JournalAfter(e, event), event.scope);
      JournalHas(JournalAfter(e, event).value, event);
    } else {
      LoggedAgain(e.tables, t, event);
    }
  }

  lemma PutLookup<V>(m: map<Scope, V>, scope: Scope)
    ensures PutOption(m, scope, Lookup(m, scope)) == m
  {
  }

  lemma StartTidy(cfg: Config, s: ScopeState, event: Event, recordEvent: bool)
    requires Tidy(cfg.window, s, event.scope)
    ensures Tidy(cfg.window, StartOf(cfg, s, event, recordEvent), event.scope)
  {
  }

  lemma ResetOutside(t: Tables, r: Tables, scope: Scope, start: ScopeState)
    requires Bounded(t) && start == EMPTY.(recent := start.recent) && AllOf(start.recent, scope)
    requires r == DropScope(t, scope).(recent := (t.recent - {scope})[scope := start.recent])
    ensures ReachedBy(t, r, scope, true, start) && Bounded(r)
  {
    ResetView(t, r, scope, start, scope);
    WithoutTwice(t.agg, scope);
    WithoutTwice(t.history, scope);
    forall other ensures InBounds(r, other) {
      ResetView(t, r, scope, start, other);
      assert InBounds(t, other);
    }
  }

  lemma WithoutTwice<T, V>(m: map<Key<T>, V>, scope: Scope)
    ensures Without(Without(m, scope), scope) == Without(m, scope)
  {
  }

  /** After a reset only the log of the scope is left of it. */
  lemma ResetView(t: Tables, r: Tables, scope: Scope, start: ScopeState, other: Scope)
    requires start == EMPTY.(recent := start.recent)
    requires r == DropScope(t, scope).(recent := (t.recent - {scope})[scope := start.recent])
    ensures ViewOf(r, other) == if other == scope then start else ViewOf(t, other)
  {
    ViewDrop(t, scope, other);
    var d := DropScope(t, scope);
    assert ViewOf(r, other) == ViewOf(d, other).(recent := ViewOf(r, other).recent);
  }

  /** The tables reached from `t` by replaying: at first only the scope's own entries are in doubt. */
  ghost predicate ReachedBy(t: Tables, now: Tables, scope: Scope, first: bool, s: ScopeState) {
    && ViewOf(now, scope) == s && Scoped(s, scope)
    && if first then SameOutside(now, t, scope) else now == PutScope(t, scope, s)
  }

  lemma ReplayStep(cfg: Config, t: Tables, before: Tables, after: Tables, scope: Scope, first: bool,
                   s: ScopeState, s': ScopeState, event: Event)
    requires ReachedBy(t, before, scope, first, s) && InBounds(before, scope) && before.window == cfg.window
    requires event.scope == scope && s' == Computed(cfg, s, event)
    requires after == PutScope(before, scope, s')
    ensures ReachedBy(t, after, scope, false, s') && scope in after.recent
  {
    ComputedTidy(cfg, s, event);
    if first {
      PutOutside(before, t, scope, s');
    } else {
      PutPut(t, scope, s, s');
    }
    ViewPut(t, scope, s', scope);
  }

  lemma ReplayedNext(cfg: Config, start: ScopeState, events: seq<Event>, i: nat)
    requires i < |events|
    ensures Replayed(cfg, start, events[..i + 1]) == Computed(cfg, Replayed(cfg, start, events[..i]), events[i])
  {
    TakeNext(events, i);
  }

  lemma LoggedAgain(t: Tables, r: Tables, event: Event)
    requires Bounded(t)
    requires r == t.(recent := t.recent[event.scope := ViewOf(t, event.scope).recent + [event]])
    ensures Bounded(r) && AllOf(r.recent[event.scope], event.scope)
  {
    assert InBounds(t, event.scope);
    forall other ensures InBounds(r, other) {
      assert InBounds(t, other);
    }
  }

  /** A rebuild after a late event is the step of the specification. */
  lemma LateStep(cfg: Config, e: Engine, event: Event, t: Tables, after: Tables)
    requires Late(ViewOf(e.tables, event.scope), event) && t == LateTables(e, event)
    requires after == PutScope(t, event.scope, Rebuilt(cfg, LateSource(e, event)))
    ensures Engine(after, JournalAfter(e, event)) == Step(cfg, Recompute, e, event)
    ensures StepOutput(cfg, Recompute, e, event) == RebuiltVector(cfg, LateSource(e, event))
  {
    StepLate(cfg, e, event);
    if e.journal.None? {
      PutSame(t.recent, e.tables.recent, event.scope, Rebuilt(cfg, LateSource(e, event)).recent);
    }
  }

  lemma StepLate(cfg: Config, e: Engine, event: Event)
    requires Late(ViewOf(e.tables, event.scope), event)
    ensures Step(cfg, Recompute, e, event)
         == Engine(PutScope(e.tables, event.scope, Rebuilt(cfg, LateSource(e, event))), JournalAfter(e, event))
    ensures StepOutput(cfg, Recompute, e, event) == RebuiltVector(cfg, LateSource(e, event))
  {
  }

  lemma PresentNext<T>(outputs: seq<Option<T>>, next: Option<T>)
    ensures Present(outputs + [next]) == Present(outputs) + if next.Some? then [next.value] else []
  {
    PresentAppend(outputs, [next]);
    assert [next][1..] == [];
  }

  lemma JournalHas(rows: seq<Event>, event: Event)
    requires event in rows
    ensures Only(event.scope, rows) != []
  {
    FilterMembers(rows, (e: Event) => e.scope == event.scope, event);
  }

  function EffectiveWindow(windows: seq<pos>): pos {
    if windows == [] then 5 else MaxWindow(windows)
  }

  function MaxWindow(windows: seq<pos>): (r: pos)
    requires windows != []
    ensures r in windows && forall w :: w in windows ==> w <= r
  {
    if |windows| == 1 then windows[0]
    else
      assert windows == [windows[0]] + windows[1..];
      var m := MaxWindow(windows[1..]);
      if m < windows[0] then windows[0] else m
  }

  function EmptyTables(window: pos): Tables {
    Tables(window, map[], map[], map[], map[], map[], map[])
  }

  function ConfigOf(num: Numerics, features: FeatureSet): Config
    requires Dag.Plan(features.nodes).Some?
  {
    Config(num, features.name, features.version, EffectiveWindow(features.windows), Dag.Plan(features.nodes).value)
  }

  lemma EmptySound(cfg: Config, e: Engine)
    requires e.tables == EmptyTables(cfg.window)
    ensures Sound(cfg, e)
  {
    forall scope ensures InBounds(e.tables, scope) {
      assert ViewOf(e.tables, scope).ema == map[] && ViewOf(e.tables, scope).history == map[];
    }
  }
}
