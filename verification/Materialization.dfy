/** A materialization run (`materialization.py`). */
module Materialization {
  import opened Sequences
  import opened Sorting
  import opened FeatureModel
  import opened ScopeRuntime
  import opened Runtime
  import opened AsofJoin
  import opened OfflineStore
  import opened Batch

  function Stamp(v: Vector, p: Prepared, lineage: string): Vector {
    v.(sourceCutoffTs := p.cutoff, lineage := lineage)
  }

  /** What the engine answered, with the cutoff of its event and the lineage of the run. */
  function Stamped(outputs: seq<Option<Vector>>, prepared: seq<Prepared>, lineage: string): seq<Vector>
    requires |outputs| == |prepared|
  {
    if outputs == [] then []
    else
      var n := |outputs| - 1;
      var front := Stamped(outputs[..n], prepared[..n], lineage);
      if outputs[n].None? then front
      else front + [Stamp(outputs[n].value, prepared[n], lineage)]
  }

  function EventsOfPrepared(prepared: seq<Prepared>): (r: seq<Event>)
    ensures |r| == |prepared|
  {
    seq(|prepared|, i requires 0 <= i < |prepared| => prepared[i].event)
  }

  function FreshEngine(window: pos): Engine {
    Engine(EmptyTables(window), None)
  }

  /** What a materialization run stores and returns. */
  function Materialized(cfg: Config, prepared: seq<Prepared>, lineage: string): seq<Vector> {
    Stamped(RunOutputs(cfg, Reject, FreshEngine(cfg.window), EventsOfPrepared(prepared)), prepared, lineage)
  }

  /** Nothing comes back, and nothing is stored, when the nodes cannot be ordered. */
  method Materialize(num: Numerics, events: seq<Event>, features: FeatureSet, store: OfflineFeatureStore,
                     runId: string, lineage: string, auxes: seq<Auxiliary>) returns (result: Option<seq<Vector>>)
    modifies store
    ensures Dag.Plan(features.nodes).None? ==> result == None && store.rows == old(store.rows)
    ensures Dag.Plan(features.nodes).Some? ==>
      && result == Some(Materialized(ConfigOf(num, features), PreparedAll(auxes, Sort(events, SymbolEventLe)), lineage))
      && store.rows == PutAll(old(store.rows), result.value, runId)
    ensures result.Some? ==>
      forall v :: v in result.value ==> v.lineage == lineage && v.sourceCutoffTs == v.availableTs
  {
    var prepared := PrepareEvents(Sort(events, SymbolEventLe), auxes);
    var engine := FeatureRuntimeEngine.Create(num, features, Reject, null);
    if engine == null {
      return None;
    }
    var outputs := StampedUpdates(engine, prepared, lineage);
    ghost var cfg := ConfigOf(num, features);
    MaterializedCutoffs(cfg, Reject, FreshEngine(cfg.window), auxes, Sort(events, SymbolEventLe), lineage);
    store.PutMany(outputs, runId);
    result := Some(outputs);
  }

  method StampedUpdates(engine: FeatureRuntimeEngine, prepared: seq<Prepared>, lineage: string)
    returns (outputs: seq<Vector>)
    requires engine.Valid()
    modifies engine`eventsIn, engine`featuresOut, engine`transformErrors, engine.state, engine.journal
    ensures outputs == Stamped(RunOutputs(old(engine.Conf()), engine.policy, old(engine.Value()),
      EventsOfPrepared(prepared)), prepared, lineage)
  {
    ghost var e, cfg := engine.Value(), engine.Conf();
    ghost var raw: seq<Option<Vector>> := [];
    outputs := [];
    for i := 0 to |prepared|
      invariant engine.Valid() && engine.Conf() == cfg && engine.state == old(engine.state) && |raw| == i
      invariant StampedTo(cfg, engine.policy, e, prepared, lineage, engine.Value(), raw, outputs)
    {
      ghost var before := engine.Value();
      var fv := engine.Update(prepared[i].event);
      StampedToNext(cfg, engine.policy, e, prepared, lineage, before, raw, outputs, fv);
      raw := raw + [fv];
      if fv.Some? {
        outputs := outputs + [Stamp(fv.value, prepared[i], lineage)];
      }
    }
    StampedToEnd(cfg, engine.policy, e, prepared, lineage, engine.Value(), raw, outputs);
  }

  /** What the loop has when it has seen the first events. */
  ghost predicate StampedTo(cfg: Config, policy: Policy, e: Engine, prepared: seq<Prepared>, lineage: string,
                            now: Engine, raw: seq<Option<Vector>>, outputs: seq<Vector>) {
    && Reached(cfg, policy, e, EventsOfPrepared(prepared), now, raw)
    && outputs == Stamped(raw, prepared[..|raw|], lineage)
  }

  lemma StampedToNext(cfg: Config, policy: Policy, e: Engine, prepared: seq<Prepared>, lineage: string,
                      now: Engine, raw: seq<Option<Vector>>, outputs: seq<Vector>, fv: Option<Vector>)
    requires StampedTo(cfg, policy, e, prepared, lineage, now, raw, outputs) && |raw| < |prepared|
    requires fv == StepOutput(cfg, policy, now, prepared[|raw|].event)
    ensures StampedTo(cfg, policy, e, prepared, lineage, Step(cfg, policy, now, prepared[|raw|].event), raw + [fv],
                      if fv.None? then outputs else outputs + [Stamp(fv.value, prepared[|raw|], lineage)])
  {
    ReachedNext(cfg, policy, e, EventsOfPrepared(prepared), now, raw, fv);
    StampedNext(raw, prepared, fv, lineage);
  }

  lemma StampedToEnd(cfg: Config, policy: Policy, e: Engine, prepared: seq<Prepared>, lineage: string,
                     now: Engine, raw: seq<Option<Vector>>, outputs: seq<Vector>)
    requires StampedTo(cfg, policy, e, prepared, lineage, now, raw, outputs) && |raw| == |prepared|
    ensures outputs == Stamped(RunOutputs(cfg, policy, e, EventsOfPrepared(prepared)), prepared, lineage)
  {
    ReachedAll(cfg, policy, e, EventsOfPrepared(prepared), now, raw);
    assert prepared[..|raw|] == prepared;
  }

  lemma StampedNext(raw: seq<Option<Vector>>, prepared: seq<Prepared>, fv: Option<Vector>, lineage: string)
    requires |raw| < |prepared|
    ensures var n := |raw|;
            var front := Stamped(raw, prepared[..n], lineage);
            Stamped(raw + [fv], prepared[..n + 1], lineage)
              == if fv.None? then front else front + [Stamp(fv.value, prepared[n], lineage)]
  {
    assert (raw + [fv])[..|raw|] == raw && prepared[..|raw| + 1][..|raw|] == prepared[..|raw|];
  }

  lemma AnswerAt(cfg: Config, policy: Policy, e: Engine, events: seq<Event>, k: nat)
    requires k < |events|
    ensures RunOutputs(cfg, policy, e, events)[k]
      == StepOutput(cfg, policy, Run(cfg, policy, e, events[..k]), events[k])
  {
    EarlierRun(cfg, policy, e, events, k);
    RunNext(cfg, policy, e, events, k);
  }

  lemma StepCutoff(cfg: Config, policy: Policy, e: Engine, event: Event)
    requires policy.Reject?
    ensures var fv := StepOutput(cfg, policy, e, event);
            fv.Some? ==> fv.value.sourceCutoffTs == fv.value.availableTs == event.availableTs
  {
  }

  /** Each answer is cut off at its own availability, which is the cutoff of its prepared event. */
  ghost predicate CutOff(raw: seq<Option<Vector>>, prepared: seq<Prepared>)
    requires |raw| == |prepared|
  {
    forall i :: 0 <= i < |raw| && raw[i].Some? ==>
      raw[i].value.sourceCutoffTs == raw[i].value.availableTs == prepared[i].cutoff
  }

  lemma AnsweredCutoffs(cfg: Config, policy: Policy, e: Engine, auxes: seq<Auxiliary>, events: seq<Event>)
    requires policy.Reject?
    ensures var prepared := PreparedAll(auxes, events);
            CutOff(RunOutputs(cfg, policy, e, EventsOfPrepared(prepared)), prepared)
  {
    var prepared := PreparedAll(auxes, events);
    var inputs := EventsOfPrepared(prepared);
    forall i | 0 <= i < |events| && RunOutputs(cfg, policy, e, inputs)[i].Some?
      ensures var fv := RunOutputs(cfg, policy, e, inputs)[i].value;
              fv.sourceCutoffTs == fv.availableTs == prepared[i].cutoff
    {
      AnswerAt(cfg, policy, e, inputs, i);
      StepCutoff(cfg, policy, Run(cfg, policy, e, inputs[..i]), inputs[i]);
      JoinsNeverLookAhead(auxes, Prepared(events[i], events[i].availableTs));
    }
  }

  /** Each materialized vector is cut off at its own availability, whatever was joined to its event. */
  lemma MaterializedCutoffs(cfg: Config, policy: Policy, e: Engine, auxes: seq<Auxiliary>, events: seq<Event>,
                            lineage: string)
    requires policy.Reject?
    ensures var prepared := PreparedAll(auxes, events);
            forall v :: v in Stamped(RunOutputs(cfg, policy, e, EventsOfPrepared(prepared)), prepared, lineage) ==>
              v.sourceCutoffTs == v.availableTs && v.lineage == lineage
  {
    AnsweredCutoffs(cfg, policy, e, auxes, events);
    var prepared := PreparedAll(auxes, events);
    StampedPresent(RunOutputs(cfg, policy, e, EventsOfPrepared(prepared)), prepared, lineage);
  }

  /** A run stores the answers of an engine to the joined events, in order, under its lineage. */
  lemma MaterializedAre(cfg: Config, auxes: seq<Auxiliary>, events: seq<Event>, lineage: string)
    ensures var prepared := PreparedAll(auxes, events);
            InLineage(Materialized(cfg, prepared, lineage),
                      Present(RunOutputs(cfg, Reject, FreshEngine(cfg.window), EventsOfPrepared(prepared))), lineage)
  {
    var prepared := PreparedAll(auxes, events);
    var e := FreshEngine(cfg.window);
    AnsweredCutoffs(cfg, Reject, e, auxes, events);
    StampedPresent(RunOutputs(cfg, Reject, e, EventsOfPrepared(prepared)), prepared, lineage);
  }

  /** The answers themselves, but for their lineage. */
  predicate InLineage(vectors: seq<Vector>, answers: seq<Vector>, lineage: string) {
    |vectors| == |answers| && forall i :: 0 <= i < |vectors| ==> vectors[i] == answers[i].(lineage := lineage)
  }

  lemma {:induction false} StampedPresent(raw: seq<Option<Vector>>, prepared: seq<Prepared>, lineage: string)
    requires |raw| == |prepared| && CutOff(raw, prepared)
    ensures InLineage(Stamped(raw, prepared, lineage), Present(raw), lineage)
    ensures forall v :: v in Stamped(raw, prepared, lineage) ==>
      v.sourceCutoffTs == v.availableTs && v.lineage == lineage
  {
    if raw != [] {
      var n := |raw| - 1;
      StampedPresent(raw[..n], prepared[..n], lineage);
      FrontLast(raw);
      PresentNext(raw[..n], raw[n]);
    }
  }

  /** Auxiliary records that become available after every event change no materialized vector. */
  lemma LaterRecordsChangeNoVector(cfg: Config, more: seq<Auxiliary>, auxes: seq<Auxiliary>, events: seq<Event>,
                                   lineage: string)
    requires |more| == |auxes|
    requires forall i, e :: 0 <= i < |auxes| && e in events ==> SameKnown(more[i], auxes[i], e)
    ensures Materialized(cfg, PreparedAll(more, events), lineage)
      == Materialized(cfg, PreparedAll(auxes, events), lineage)
  {
    forall k | 0 <= k < |events| ensures PreparedAll(more, events)[k] == PreparedAll(auxes, events)[k] {
      assert events[k] in events;
      LaterRecordsChangeNothing(more, auxes, Prepared(events[k], events[k].availableTs));
    }
    assert PreparedAll(more, events) == PreparedAll(auxes, events);
  }
}
