/** The recovery smoke test: save, restore, go on, and compare with an uninterrupted run (`recovery.py`). */
module Recovery {
  import opened Sequences
  import opened Sorting
  import opened FeatureModel
  import opened Nodes
  import opened State
  import opened ScopeRuntime
  import opened Isolation
  import opened Batch
  import opened Snapshot
  import opened RejectPolicy
  import opened StateStore
  import opened Runtime
  import opened Materialization
  import opened Parity

  /** `Crashed` when the nodes cannot be ordered or a key of the snapshot does not split. */
  datatype SmokeReport = SmokeReport(passOk: bool, reason: string) | Crashed

  /** What a fresh engine answers to the events, one entry per event. */
  function Answers(cfg: Config, ordered: seq<Event>): (r: seq<Option<Vector>>)
    ensures |r| == |ordered|
  {
    RunOutputs(cfg, Reject, FreshEngine(cfg.window), ordered)
  }

  /** The outcome for scopes without bars: it fails only for want of events or of answers. */
  function SmokeOutcome(cfg: Config, ordered: seq<Event>): SmokeReport {
    if |ordered| < 2 then SmokeReport(false, "need at least two events")
    else if Present(Answers(cfg, ordered)[|ordered| / 2..]) == [] then SmokeReport(false, "insufficient_outputs")
    else SmokeReport(true, "")
  }

  /** What is saved: the state after the first half of the events. */
  function HalfTables(cfg: Config, ordered: seq<Event>): Tables {
    Run(cfg, Reject, FreshEngine(cfg.window), ordered[..|ordered| / 2]).tables
  }

  /**
    * Without bars in the scopes the outcome is the specified one, and with a scope per symbol that
    * is success on any two events. The test crashes exactly when the nodes cannot be planned, or an
    * EMA is and the first half has enough events in time of a scope with a bar to fill it.
    */
  method RunRecoverySmokeTest(num: Numerics, events: seq<Event>, features: FeatureSet) returns (report: SmokeReport)
    ensures |events| < 2 ==> report == SmokeReport(false, "need at least two events")
    ensures Dag.Plan(features.nodes).Some? && PlainScopes(events)
      ==> report == SmokeOutcome(ConfigOf(num, features), Sort(events, SymbolEventLe))
    ensures Dag.Plan(features.nodes).Some? && PlainScopes(events) && |events| >= 2
      ==> report.SmokeReport? && report.reason == if report.passOk then "" else "insufficient_outputs"
    ensures Dag.Plan(features.nodes).Some? && PlainScopes(events) && |events| >= 2
      ==> (report == SmokeReport(true, "") <==>
             Present(Answers(ConfigOf(num, features), Sort(events, SymbolEventLe))[|events| / 2..]) != [])
    ensures Dag.Plan(features.nodes).Some? && PlainScopes(events) && ScopesNameSymbols(events)
      ==> (report == SmokeReport(true, "") <==> 2 <= |events|)
    ensures |events| >= 2
      ==> (report == Crashed <==>
             Dag.Plan(features.nodes).None?
             || BarredEma(features.nodes, EffectiveWindow(features.windows),
                          Sort(events, SymbolEventLe)[..|events| / 2]))
  {
    var ordered := Sort(events, SymbolEventLe);
    if |ordered| < 2 {
      return SmokeReport(false, "need at least two events");
    }
    var split := |ordered| / 2;
    var engineA := FeatureRuntimeEngine.Create(num, features, Reject, null);
    if engineA == null {
      return Crashed;
    }
    ghost var cfg := engineA.Conf();
    SmokeTestPasses(cfg, events);
    SortedPlain(events);
    var firstHalf := engineA.UpdateBatch(ordered[..split]);
    var payload := engineA.state.Snapshot();
    var restored := RuntimeStateStore.FromSnapshot(payload);
    HalfReadable(cfg, ordered, payload);
    HalfBarred(num, features, events);
    if restored == null {
      return Crashed;
    }
    report := ResumeAndCompare(num, features, ordered, split, firstHalf, payload, restored);
  }

  /** A new engine goes on from the restored state. */
  method Resume(num: Numerics, features: FeatureSet, rest: seq<Event>, restored: RuntimeStateStore)
    returns (vectors: seq<Vector>)
    requires Dag.Plan(features.nodes).Some? && Bounded(restored.Value())
    requires restored.Value().window == ConfigOf(num, features).window
    modifies restored
    ensures vectors
         == Present(RunOutputs(ConfigOf(num, features), Reject, Engine(old(restored.Value()), None), rest))
  {
    var engine := FeatureRuntimeEngine.Create(num, features, Reject, null);
    engine.RestoreState(restored);
    assert engine.Conf() == ConfigOf(num, features) && engine.Value() == Engine(restored.Value(), None);
    vectors := engine.UpdateBatch(rest);
  }

  /** The second half of the smoke test, from the restored state on. */
  method ResumeAndCompare(num: Numerics, features: FeatureSet, ordered: seq<Event>, split: nat, firstHalf: seq<Vector>,
                          ghost payload: Payload, restored: RuntimeStateStore) returns (report: SmokeReport)
    requires Dag.Plan(features.nodes).Some? && split == |ordered| / 2 && 2 <= |ordered|
    requires var cfg := ConfigOf(num, features);
             var half := Run(cfg, Reject, FreshEngine(cfg.window), ordered[..split]);
             && IsSnapshot(half.tables, payload) && RestoresTo(payload, restored.Value())
             && firstHalf == Present(Answers(cfg, ordered[..split]))
    modifies restored
    ensures report.SmokeReport?
    ensures PlainScopes(ordered) ==> report == SmokeOutcome(ConfigOf(num, features), ordered)
  {
    ghost var cfg := ConfigOf(num, features);
    ghost var half := Run(cfg, Reject, FreshEngine(cfg.window), ordered[..split]);
    HalfSound(cfg, ordered[..split]);
    RestoredBounded(half.tables, payload, restored.Value());
    ghost var t := restored.Value();
    var secondHalf := Resume(num, features, ordered[split..], restored);
    var control := FeatureRuntimeEngine.Create(num, features, Reject, null);
    var full := control.UpdateBatch(ordered);
    report := Verdict(firstHalf, secondHalf, full);
    VerdictIsOutcome(cfg, ordered, split, payload, t);
  }

  /** What the test makes of the vectors of the two halves and of the uninterrupted run. */
  function Verdict(firstHalf: seq<Vector>, secondHalf: seq<Vector>, full: seq<Vector>): SmokeReport {
    if secondHalf == [] || full == [] || firstHalf == [] then SmokeReport(false, "insufficient_outputs")
    else
      var lastOk := secondHalf[|secondHalf| - 1].values == full[|full| - 1].values;
      SmokeReport(lastOk, if lastOk then "" else "restored_state_diverged")
  }

  lemma VerdictIsOutcome(cfg: Config, ordered: seq<Event>, split: nat, p: Payload, t: Tables)
    requires split == |ordered| / 2 && 2 <= |ordered|
    requires IsSnapshot(Run(cfg, Reject, FreshEngine(cfg.window), ordered[..split]).tables, p) && RestoresTo(p, t)
    ensures PlainScopes(ordered) ==>
      var second := Present(RunOutputs(cfg, Reject, Engine(t, None), ordered[split..]));
      Verdict(Present(Answers(cfg, ordered[..split])), second, Present(Answers(cfg, ordered)))
        == SmokeOutcome(cfg, ordered)
  {
    Halves(cfg, ordered, split, p, t);
  }

  lemma HalfSound(cfg: Config, events: seq<Event>)
    ensures Sound(cfg, Run(cfg, Reject, FreshEngine(cfg.window), events))
    ensures Run(cfg, Reject, FreshEngine(cfg.window), events).journal == None
    ensures PlainScopes(events) ==> NoBars(Run(cfg, Reject, FreshEngine(cfg.window), events).tables)
  {
    EmptySound(cfg, FreshEngine(cfg.window));
    RunSound(cfg, Reject, FreshEngine(cfg.window), events);
    NoJournal(cfg, events);
    if PlainScopes(events) {
      RunPlain(cfg, Reject, FreshEngine(cfg.window), events);
    }
  }

  lemma {:induction false} NoJournal(cfg: Config, events: seq<Event>)
    ensures Run(cfg, Reject, FreshEngine(cfg.window), events).journal == None
  {
    if events != [] {
      NoJournal(cfg, events[..|events| - 1]);
    }
  }

  lemma EmaKind(k: Key<AggItem>)
    requires k.item.kind == "ema"
    ensures ParseAgg(AggText(k)).Some? ==> ParseAgg(AggText(k)).value.item.kind == "ema"
  {
    CutJoin("ema", k.scope + "|" + NatText(k.item.window));
  }

  lemma RestoredKinds(t: Tables, p: Payload, other: Tables)
    requires Bounded(t) && IsSnapshot(t, p) && RestoresTo(p, other)
    ensures forall k :: k in other.agg ==> k.item.kind == "ema"
  {
    BoundedTables(t);
    forall k | k in other.agg ensures k.item.kind == "ema" {
      var text :| text in p.agg && ParseAgg(text) == Some(k) && other.agg[k] == SAME(p.agg[text]);
      var j :| j in t.agg && AggText(j) == text && p.agg[text] == t.agg[j];
      EmaKind(j);
    }
  }

  lemma RestoredHistories(p: Payload, other: Tables)
    requires RestoresTo(p, other)
    ensures forall k :: k in other.history ==> |other.history[k]| <= HISTORY_LIMIT
  {
    forall k | k in other.history ensures |other.history[k]| <= HISTORY_LIMIT {
      var text :| text in p.history && ParseHistory(text) == Some(k)
        && other.history[k] == FIT_HISTORY(p.history[text]);
    }
  }

  /** What is read back of a reachable state is within its bounds, bars or not. */
  lemma RestoredBounded(t: Tables, p: Payload, other: Tables)
    requires Bounded(t) && IsSnapshot(t, p) && RestoresTo(p, other)
    ensures Bounded(other)
  {
    RestoredKinds(t, p, other);
    RestoredHistories(p, other);
    forall scope ensures InBounds(other, scope) {
      assert InBounds(t, scope);
      assert ViewOf(other, scope).recent == ViewOf(t, scope).recent;
      WithinBounds(other, scope);
    }
  }

  lemma WithinBounds(t: Tables, scope: Scope)
    requires forall k :: k in t.agg ==> k.item.kind == "ema"
    requires forall k :: k in t.history ==> |t.history[k]| <= HISTORY_LIMIT
    requires scope in t.prices ==> |t.prices[scope]| <= t.window
    requires AllOf(ViewOf(t, scope).recent, scope)
    ensures InBounds(t, scope)
  {
  }

  /** What the tail of a run yielded last is what the run yielded last. */
  lemma PresentTail<T>(all: seq<Option<T>>, split: nat)
    requires split <= |all| && Present(all[split..]) != []
    ensures Present(all) != []
    ensures Present(all)[|Present(all)| - 1] == Present(all[split..])[|Present(all[split..])| - 1]
  {
    PresentAppend(all[..split], all[split..]);
    assert all == all[..split] + all[split..];
  }

  /** The two halves, the second after a restore, answer what one run answers. */
  lemma Halves(cfg: Config, ordered: seq<Event>, split: nat, p: Payload, t: Tables)
    requires 0 < split <= |ordered|
    requires IsSnapshot(Run(cfg, Reject, FreshEngine(cfg.window), ordered[..split]).tables, p) && RestoresTo(p, t)
    ensures Present(Answers(cfg, ordered[..split])) != []
    ensures PlainScopes(ordered) ==>
      var second := Present(RunOutputs(cfg, Reject, Engine(t, None), ordered[split..]));
      var full := Present(Answers(cfg, ordered));
      && second == Present(Answers(cfg, ordered)[split..])
      && (second != [] ==> full != [] && full[|full| - 1] == second[|second| - 1])
  {
    FirstAnswers(cfg, ordered[..split]);
    if PlainScopes(ordered) {
      Resumed(cfg, ordered, split, p, t);
      if Present(Answers(cfg, ordered)[split..]) != [] {
        PresentTail(Answers(cfg, ordered), split);
      }
    }
  }

  lemma Resumed(cfg: Config, ordered: seq<Event>, split: nat, p: Payload, t: Tables)
    requires split <= |ordered| && PlainScopes(ordered)
    requires IsSnapshot(Run(cfg, Reject, FreshEngine(cfg.window), ordered[..split]).tables, p) && RestoresTo(p, t)
    ensures RunOutputs(cfg, Reject, Engine(t, None), ordered[split..]) == Answers(cfg, ordered)[split..]
  {
    var xs, ys := ordered[..split], ordered[split..];
    HalfSound(cfg, xs);
    HalfSound(cfg, []);
    assert xs + ys == ordered;
    ResumeEqualsContinuous(cfg, Reject, FreshEngine(cfg.window), xs, ys, p, t);
    SplitTail(Answers(cfg, ordered), Answers(cfg, xs), RunOutputs(cfg, Reject, Engine(t, None), ys));
  }

  lemma SplitTail<T>(all: seq<T>, a: seq<T>, b: seq<T>)
    requires all == a + b
    ensures all[|a|..] == b
  {
  }

  /** A fresh engine answers its first event. */
  lemma {:induction false} FirstAnswers(cfg: Config, events: seq<Event>)
    requires events != []
    ensures Answers(cfg, events)[0].Some? && Present(Answers(cfg, events)) != []
  {
    if |events| > 1 {
      FirstAnswers(cfg, events[..|events| - 1]);
    } else {
      FreshViews(cfg.window);
      assert events[..0] == [];
    }
  }

  /** With a scope per symbol nothing comes late, so the test passes on any two events. */
  lemma SmokeTestPasses(cfg: Config, events: seq<Event>)
    ensures ScopesNameSymbols(events)
      ==> (SmokeOutcome(cfg, Sort(events, SymbolEventLe)) == SmokeReport(true, "") <==> 2 <= |events|)
  {
    var ordered := Sort(events, SymbolEventLe);
    if ScopesNameSymbols(events) && 2 <= |events| {
      SortedInOrder(events);
      HalfAnswers(cfg, ordered);
    }
  }

  lemma HalfAnswers(cfg: Config, ordered: seq<Event>)
    requires ScopesInOrder(ordered) && 2 <= |ordered|
    ensures Present(Answers(cfg, ordered)[|ordered| / 2..]) != []
  {
    LastAnswers(cfg, ordered);
    HalfPresent(Answers(cfg, ordered));
  }

  lemma HalfPresent<T>(s: seq<Option<T>>)
    requires 2 <= |s| && s[|s| - 1].Some?
    ensures Present(s[|s| / 2..]) != []
  {
    var tail := s[|s| / 2..];
    PresentAppend(tail[..|tail| - 1], [s[|s| - 1]]);
    assert tail == tail[..|tail| - 1] + [s[|s| - 1]];
  }

  lemma LastAnswers(cfg: Config, events: seq<Event>)
    requires ScopesInOrder(events) && events != []
    ensures Answers(cfg, events)[|events| - 1].Some?
  {
    var front, last := events[..|events| - 1], events[|events| - 1];
    EmptySound(cfg, FreshEngine(cfg.window));
    FreshViews(cfg.window);
    InOrderViews(cfg, Reject, FreshEngine(cfg.window), front, last.scope);
    NeverLate(cfg, events);
  }

  lemma SortedPlain(events: seq<Event>)
    ensures PlainScopes(events) ==> PlainScopes(Sort(events, SymbolEventLe))
  {
    var sorted := Sort(events, SymbolEventLe);
    SortMembers(events, SymbolEventLe);
    forall i | PlainScopes(events) && 0 <= i < |sorted| ensures '|' !in sorted[i].scope {
      assert sorted[i] in sorted;
    }
  }

  lemma HalfBarred(num: Numerics, features: FeatureSet, events: seq<Event>)
    requires Dag.Plan(features.nodes).Some?
    ensures PlainAgg(HalfTables(ConfigOf(num, features), Sort(events, SymbolEventLe)))
       <==> !BarredEma(features.nodes, EffectiveWindow(features.windows),
                       Sort(events, SymbolEventLe)[..|events| / 2])
  {
    var cfg := ConfigOf(num, features);
    EmptySound(cfg, FreshEngine(cfg.window));
    FreshViews(cfg.window);
    BarredEmaKept(cfg, FreshEngine(cfg.window), Sort(events, SymbolEventLe)[..|events| / 2]);
    Dag.PlanCorrect(features.nodes);
    SameMembers(cfg.plan, features.nodes);
  }

  lemma HalfReadable(cfg: Config, ordered: seq<Event>, p: Payload)
    requires IsSnapshot(HalfTables(cfg, ordered), p)
    ensures Readable(p) <==> PlainAgg(HalfTables(cfg, ordered))
    ensures PlainScopes(ordered) ==> Readable(p)
  {
    HalfSound(cfg, ordered[..|ordered| / 2]);
    ReadableIff(HalfTables(cfg, ordered), p);
  }

  /** One event of a scope with a bar and an EMA over one price, and the saved state cannot be read. */
  lemma BarredScopeUnreadable(cfg: Config, event: Event, p: Payload)
    requires cfg.plan == [Node("ema", "ema", [], Rolling(1, Ema))] && '|' in event.scope
    requires IsSnapshot(Run(cfg, Reject, FreshEngine(cfg.window), [event]).tables, p)
    ensures !Readable(p)
  {
    var after := Run(cfg, Reject, FreshEngine(cfg.window), [event]);
    EmptySound(cfg, FreshEngine(cfg.window));
    FreshViews(cfg.window);
    HalfSound(cfg, [event]);
    assert [event][..0] == [];
    StepView(cfg, Reject, FreshEngine(cfg.window), event, event.scope);
    var x := InputsFor(cfg, Recorded(cfg, EMPTY, event), event);
    assert RunPlan(x, cfg.plan[1..], AfterNode(x, cfg.plan[0], Pass(map[], map[])))
      == AfterNode(x, cfg.plan[0], Pass(map[], map[]));
    assert EmaKey(event.scope, 1) in ViewOf(after.tables, event.scope).ema;
    ReadableIff(after.tables, p);
  }
}
