/** What nodes that look back see of what was emitted before (`nodes.py`, `state.py`). */
module Lookbacks {
  import opened Sequences
  import opened Sorting
  import opened FeatureModel
  import opened Nodes
  import opened State
  import opened ScopeRuntime
  import opened Isolation
  import opened LateEvents

  /** The value emitted under a name, if any. */
  function Shown(values: map<string, real>, name: string): seq<real> {
    if name in values then [values[name]] else []
  }

  /** What events taken in turn by an empty scope emit under a name. */
  function EmittedBy(cfg: Config, events: seq<Event>, name: string): seq<real> {
    if events == [] then []
    else
      var front, last := events[..|events| - 1], events[|events| - 1];
      EmittedBy(cfg, front, name) + Shown(PassFor(cfg, TakenAll(cfg, EMPTY, front), last).values, name)
  }

  /**
    * What was emitted for a scope under a name, oldest first: after what the first state remembers,
    * by each event taken, or by the latest replay and the events taken since.
    */
  function Emissions(cfg: Config, policy: Policy, e: Engine, events: seq<Event>, scope: Scope,
                     name: string): seq<real> {
    if events == [] then HistoryOf(ViewOf(e.tables, scope).history, scope, name)
    else
      var front, last := events[..|events| - 1], events[|events| - 1];
      var before := Run(cfg, policy, e, front);
      var earlier := Emissions(cfg, policy, e, front, scope, name);
      if last.scope != scope then earlier
      else EmittedNext(cfg, policy, ViewOf(before.tables, scope), LoggedFor(JournalAfter(before, last), scope), last,
                       name, earlier)
  }

  function EmittedNext(cfg: Config, policy: Policy, s: ScopeState, logged: Option<seq<Event>>, event: Event,
                       name: string, earlier: seq<real>): seq<real> {
    if Late(s, event) && policy.Reject? then earlier
    else if Late(s, event) && policy.Recompute? then
      EmittedBy(cfg, Sort(ReplaySource(s, logged, event), EventLe), name)
    else earlier + Shown(PassFor(cfg, s, event).values, name)
  }

  /** The history of a name is the end of what was emitted under it. */
  ghost predicate Remembers(s: ScopeState, scope: Scope, name: string, past: seq<real>) {
    HistoryOf(s.history, scope, name) == LastN(past, HISTORY_LIMIT)
  }

  lemma ComputedRemembers(cfg: Config, s: ScopeState, event: Event, name: string, past: seq<real>)
    requires Remembers(s, event.scope, name, past)
    ensures Remembers(Computed(cfg, s, event), event.scope, name, past + Shown(PassFor(cfg, s, event).values, name))
  {
    var shown := Shown(PassFor(cfg, s, event).values, name);
    LastNAppend(past, shown, HISTORY_LIMIT);
    assert LastN(past, HISTORY_LIMIT) + [] == LastN(past, HISTORY_LIMIT) && past + [] == past;
  }

  lemma TakenRemembers(cfg: Config, s: ScopeState, event: Event, name: string, past: seq<real>)
    requires Remembers(s, event.scope, name, past)
    ensures Remembers(Taken(cfg, s, event), event.scope, name, past + Shown(PassFor(cfg, s, event).values, name))
  {
    assert PassFor(cfg, Recorded(cfg, s, event), event) == PassFor(cfg, s, event);
    ComputedRemembers(cfg, Recorded(cfg, s, event), event, name, past);
  }

  lemma {:induction false} TakenAllRemembers(cfg: Config, events: seq<Event>, scope: Scope, name: string)
    requires AllOf(events, scope)
    ensures Remembers(TakenAll(cfg, EMPTY, events), scope, name, EmittedBy(cfg, events, name))
  {
    if events != [] {
      var front, last := events[..|events| - 1], events[|events| - 1];
      TakenAllRemembers(cfg, front, scope, name);
      TakenRemembers(cfg, TakenAll(cfg, EMPTY, front), last, name, EmittedBy(cfg, front, name));
    }
  }

  lemma UpdatedRemembers(cfg: Config, policy: Policy, s: ScopeState, logged: Option<seq<Event>>, event: Event,
                         name: string, earlier: seq<real>)
    requires Tidy(cfg.window, s, event.scope) && (logged.Some? ==> AllOf(logged.value, event.scope))
    requires Remembers(s, event.scope, name, earlier)
    ensures Remembers(Updated(cfg, policy, s, logged, event), event.scope, name,
                      EmittedNext(cfg, policy, s, logged, event, name, earlier))
  {
    if Late(s, event) && policy.Recompute? {
      var source := ReplaySource(s, logged, event);
      RebuiltIsTaken(cfg, source);
      SortAllOf(source, event.scope);
      TakenAllRemembers(cfg, Sort(source, EventLe), event.scope, name);
    } else if !Late(s, event) || policy.Accept? {
      TakenRemembers(cfg, s, event, name, earlier);
    }
  }

  /** In every reachable state, under every policy, the history of a name is the end of what was emitted under it. */
  lemma {:induction false} HistoryIsTail(cfg: Config, policy: Policy, e: Engine, events: seq<Event>,
                                         scope: Scope, name: string)
    requires Sound(cfg, e)
    ensures Remembers(ViewOf(Run(cfg, policy, e, events).tables, scope), scope, name,
                      Emissions(cfg, policy, e, events, scope, name))
  {
    if events == [] {
      assert InBounds(e.tables, scope);
    } else {
      var front, last := events[..|events| - 1], events[|events| - 1];
      HistoryIsTail(cfg, policy, e, front, scope, name);
      RunSound(cfg, policy, e, front);
      var before := Run(cfg, policy, e, front);
      StepView(cfg, policy, before, last, scope);
      if last.scope == scope {
        var logged := LoggedFor(JournalAfter(before, last), scope);
        LoggedAllOf(JournalAfter(before, last), scope);
        assert InBounds(before.tables, scope);
        UpdatedRemembers(cfg, policy, ViewOf(before.tables, scope), logged, last, name,
                         Emissions(cfg, policy, e, front, scope, name));
      }
    }
  }

  function ShownBy(output: Option<Vector>, name: string): seq<real> {
    if output.Some? then Shown(output.value.values, name) else []
  }

  function Answered(outputs: seq<Option<Vector>>, name: string): seq<real> {
    if outputs == [] then []
    else
      var last := outputs[|outputs| - 1];
      Answered(outputs[..|outputs| - 1], name) + ShownBy(last, name)
  }

  /** Unless late events are replayed, what was emitted is what was answered. */
  lemma {:induction false} EmissionsAreAnswers(cfg: Config, policy: Policy, e: Engine, events: seq<Event>,
                                               scope: Scope, name: string)
    requires !policy.Recompute?
    ensures Emissions(cfg, policy, e, events, scope, name)
         == HistoryOf(ViewOf(e.tables, scope).history, scope, name)
            + Answered(OutputsOf(scope, events, RunOutputs(cfg, policy, e, events)), name)
  {
    if events != [] {
      var front, last := events[..|events| - 1], events[|events| - 1];
      var before := Run(cfg, policy, e, front);
      EmissionsAreAnswers(cfg, policy, e, front, scope, name);
      OutputsNext(cfg, policy, e, events, scope);
      if last.scope == scope {
        var s := ViewOf(before.tables, scope);
        var logged := LoggedFor(JournalAfter(before, last), scope);
        AnswerShown(cfg, policy, s, logged, last, name, Emissions(cfg, policy, e, front, scope, name));
        var outputs := OutputsOf(scope, front, RunOutputs(cfg, policy, e, front));
        AnsweredNext(outputs, StepOutput(cfg, policy, before, last), name);
        AppendAssociative(HistoryOf(ViewOf(e.tables, scope).history, scope, name), Answered(outputs, name),
                          ShownBy(StepOutput(cfg, policy, before, last), name));
      }
    } else {
      var h := HistoryOf(ViewOf(e.tables, scope).history, scope, name);
      assert h + [] == h;
    }
  }

  lemma OutputsNext(cfg: Config, policy: Policy, e: Engine, events: seq<Event>, scope: Scope)
    requires events != []
    ensures var front, last := events[..|events| - 1], events[|events| - 1];
            var earlier := OutputsOf(scope, front, RunOutputs(cfg, policy, e, front));
            OutputsOf(scope, events, RunOutputs(cfg, policy, e, events))
              == if last.scope == scope then earlier + [StepOutput(cfg, policy, Run(cfg, policy, e, front), last)]
                 else earlier
  {
    var n := |events| - 1;
    assert RunOutputs(cfg, policy, e, events)[..n] == RunOutputs(cfg, policy, e, events[..n]);
  }

  lemma AnswerShown(cfg: Config, policy: Policy, s: ScopeState, logged: Option<seq<Event>>, event: Event,
                    name: string, earlier: seq<real>)
    requires !policy.Recompute?
    ensures EmittedNext(cfg, policy, s, logged, event, name, earlier)
         == earlier + ShownBy(Output(cfg, policy, s, logged, event), name)
  {
    assert PassFor(cfg, Recorded(cfg, s, event), event) == PassFor(cfg, s, event);
    assert earlier + [] == earlier;
  }

  lemma AnsweredNext(outputs: seq<Option<Vector>>, next: Option<Vector>, name: string)
    ensures Answered(outputs + [next], name) == Answered(outputs, name) + ShownBy(next, name)
  {
    assert (outputs + [next])[..|outputs|] == outputs;
  }

  /** Nodes that read the history of what was emitted. */
  predicate LooksBack(kind: Kind) {
    kind.Lag? || kind.Volatility? || kind.ZScore?
  }

  /**
    * `past` being what was emitted under the source: a lag gives the value emitted n emissions ago, a
    * volatility or z-score is over the last w values, from two on; if there are so many, and if the
    * node looks back no further than 512.
    */
  predicate SeesBack(num: Numerics, kind: Kind, past: seq<real>, context: map<string, real>, value: Option<real>) {
    match kind
    case Lag(_, n) => value == (if n <= 512 && n <= |past| then Some(past[|past| - n]) else None)
    case Volatility(_, w) =>
      value == (if 2 <= w <= 512 && w <= |past| then Some(num.sqrt(Variance(past[|past| - w..]))) else None)
    case ZScore(source, w) =>
      if 2 <= w <= 512 && w <= |past| && source in context && 0.0 < Variance(past[|past| - w..]) then
        value == Some((context[source] - Mean(past[|past| - w..])) / num.sqrt(Variance(past[|past| - w..])))
      else value == None
    case _ => false
  }

  lemma TailOfTail(past: seq<real>, w: nat)
    ensures w <= HISTORY_LIMIT ==> LastN(LastN(past, HISTORY_LIMIT), w) == LastN(past, w)
    ensures |LastN(past, HISTORY_LIMIT)| < w <==> HISTORY_LIMIT < w || |past| < w
  {
    if w <= HISTORY_LIMIT {
      LastNLastN(past, HISTORY_LIMIT, w);
    }
  }

  lemma SeenInHistory(x: Inputs, node: Node, past: seq<real>, context: map<string, real>, ema: AggStates)
    requires LooksBack(node.kind)
    requires HistoryOf(x.history, x.event.scope, node.kind.source) == LastN(past, HISTORY_LIMIT)
    ensures SeesBack(x.num, node.kind, past, context, Compute(x, node, context, ema).value)
  {
    match node.kind {
      case Lag(source, n) => LagSeen(x, source, n, past, context);
      case Volatility(source, w) => VolatilitySeen(x, source, w, past, context);
      case ZScore(source, w) => ZScoreSeen(x, source, w, past, context);
    }
  }

  lemma LagSeen(x: Inputs, source: string, n: pos, past: seq<real>, context: map<string, real>)
    requires HistoryOf(x.history, x.event.scope, source) == LastN(past, HISTORY_LIMIT)
    ensures SeesBack(x.num, Lag(source, n), past, context, LagValue(x, source, n))
  {
  }

  lemma VolatilitySeen(x: Inputs, source: string, w: pos, past: seq<real>, context: map<string, real>)
    requires HistoryOf(x.history, x.event.scope, source) == LastN(past, HISTORY_LIMIT)
    ensures SeesBack(x.num, Volatility(source, w), past, context, VolatilityValue(x, source, w))
  {
    SpreadSeen(past, w);
  }

  lemma ZScoreSeen(x: Inputs, source: string, w: pos, past: seq<real>, context: map<string, real>)
    requires HistoryOf(x.history, x.event.scope, source) == LastN(past, HISTORY_LIMIT)
    ensures SeesBack(x.num, ZScore(source, w), past, context, ZScoreValue(x, source, w, Lookup(context, source)))
  {
    SpreadSeen(past, w);
  }

  lemma SpreadSeen(past: seq<real>, w: pos)
    ensures var h := LastN(past, HISTORY_LIMIT);
            && (|h| < w <==> HISTORY_LIMIT < w || |past| < w)
            && (w <= |h| ==> LastN(h, w) == LastN(past, w) && 0.0 <= Variance(LastN(past, w)))
  {
    TailOfTail(past, w);
    if w <= HISTORY_LIMIT && w <= |past| {
      VariancePositiveIff(LastN(past, w));
    }
  }

  /** In every reachable state a node sees back exactly so far into what was emitted under its source. */
  lemma LookbackExact(cfg: Config, policy: Policy, e: Engine, events: seq<Event>, event: Event, node: Node,
                      context: map<string, real>, ema: AggStates)
    requires Sound(cfg, e) && LooksBack(node.kind)
    ensures var s := ViewOf(Run(cfg, policy, e, events).tables, event.scope);
            SeesBack(cfg.num, node.kind, Emissions(cfg, policy, e, events, event.scope, node.kind.source), context,
                     Compute(InputsFor(cfg, s, event), node, context, ema).value)
  {
    HistoryIsTail(cfg, policy, e, events, event.scope, node.kind.source);
    SeenInHistory(InputsFor(cfg, ViewOf(Run(cfg, policy, e, events).tables, event.scope), event), node,
                  Emissions(cfg, policy, e, events, event.scope, node.kind.source), context, ema);
  }

  predicate Constantly(s: seq<real>) {
    forall i, j :: 0 <= i < |s| && 0 <= j < |s| ==> s[i] == s[j]
  }

  lemma {:induction false} SumOfSquares(s: seq<real>)
    requires forall i :: 0 <= i < |s| ==> 0.0 <= s[i]
    ensures 0.0 <= Sum(s)
    ensures Sum(s) == 0.0 ==> forall i :: 0 <= i < |s| ==> s[i] == 0.0
  {
    if s != [] {
      SumOfSquares(s[1..]);
      forall i | Sum(s) == 0.0 && 0 <= i < |s| ensures s[i] == 0.0 {
        assert i > 0 ==> s[1..][i - 1] == s[i];
      }
    }
  }

  lemma {:induction false} SumOfSame(s: seq<real>, c: real)
    requires forall i :: 0 <= i < |s| ==> s[i] == c
    ensures Sum(s) == |s| as real * c
  {
    if s != [] {
      SumOfSame(s[1..], c);
    }
  }

  lemma PositiveSquare(x: real)
    requires 0.0 < x
    ensures 0.0 < x * x
  {
  }

  lemma SquareSign(x: real)
    ensures if x == 0.0 then Squared(x) == 0.0 else 0.0 < Squared(x)
  {
    if x < 0.0 {
      calc {
        0.0;
      < { PositiveSquare(-x); }
        (-x) * (-x);
      ==
        Squared(x);
      }
    } else if 0.0 < x {
      calc {
        0.0;
      < { PositiveSquare(x); }
        x * x;
      ==
        Squared(x);
      }
    }
  }

  /** A variance is never negative, and zero only when all values are the same. */
  lemma VariancePositiveIff(s: seq<real>)
    requires s != []
    ensures 0.0 <= Variance(s) && (Variance(s) == 0.0 <==> Constantly(s))
  {
    var squares := SquaredDeviations(s, Mean(s));
    DeviationsSign(s, Mean(s));
    SumOfSquares(squares);
    if Constantly(s) {
      SumOfSame(s, s[0]);
      AverageOfSame(|s|, s[0]);
      assert Mean(s) == s[0];
      SumOfSame(squares, 0.0);
    }
    QuotientSign(Sum(squares), |s|);
  }

  lemma DeviationsSign(s: seq<real>, mean: real)
    ensures forall i :: 0 <= i < |s| ==>
      if s[i] == mean then SquaredDeviations(s, mean)[i] == 0.0 else 0.0 < SquaredDeviations(s, mean)[i]
  {
    forall i | 0 <= i < |s|
      ensures if s[i] == mean then SquaredDeviations(s, mean)[i] == 0.0 else 0.0 < SquaredDeviations(s, mean)[i]
    {
      SquareSign(s[i] - mean);
    }
  }

  lemma AverageOfSame(n: pos, c: real)
    ensures (n as real * c) / n as real == c
  {
  }

  lemma QuotientSign(sum: real, n: pos)
    requires 0.0 <= sum
    ensures 0.0 <= sum / n as real && (sum / n as real == 0.0 <==> sum == 0.0)
  {
  }
}
