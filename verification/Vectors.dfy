/** What the vectors say, in terms of the events alone (`nodes.py`, `runtime.py`). */
module Vectors {
  import opened Sequences
  import opened FeatureModel
  import opened Nodes
  import opened State
  import opened ScopeRuntime
  import opened Isolation
  import opened LateEvents
  import opened PlanOrder
  import opened Ema
  import opened TruncatedLog
  import opened TruncatedError
  import opened Batch
  import opened Lookbacks

  /**
    * Whatever else arrives in between, the k-th event is answered with the newest vector of its
    * scope's events so far.
    */
  lemma InOrderAnswers(cfg: Config, policy: Policy, e: Engine, events: seq<Event>, k: nat)
    requires Sound(cfg, e) && ScopesInOrder(events) && k < |events|
    requires forall scope :: ViewOf(e.tables, scope) == EMPTY
    ensures var own := Only(events[k].scope, events[..k + 1]);
            && own != [] && own[|own| - 1] == events[k]
            && RunOutputs(cfg, policy, e, events)[k] == Some(NewestVector(cfg, own))
  {
    var upTo := events[..k + 1];
    EarlierRun(cfg, policy, e, events, k);
    TakeNext(events, k);
    LastInOrder(cfg, policy, e, upTo);
  }

  lemma LastInOrder(cfg: Config, policy: Policy, e: Engine, events: seq<Event>)
    requires Sound(cfg, e) && ScopesInOrder(events) && events != []
    requires forall scope :: ViewOf(e.tables, scope) == EMPTY
    ensures var own := Only(events[|events| - 1].scope, events);
            && own != [] && own[|own| - 1] == events[|events| - 1]
            && RunOutputs(cfg, policy, e, events)[|events| - 1] == Some(NewestVector(cfg, own))
  {
    var front, last := events[..|events| - 1], events[|events| - 1];
    var before := Only(last.scope, front);
    InOrderViews(cfg, policy, e, front, last.scope);
    NeverLate(cfg, events);
    OnlyLast(last.scope, events);
    TakenAnswers(cfg, policy, before, LoggedFor(JournalAfter(Run(cfg, policy, e, front), last), last.scope), last);
  }

  lemma TakenAnswers(cfg: Config, policy: Policy, before: seq<Event>, logged: Option<seq<Event>>, last: Event)
    requires !Late(TakenAll(cfg, EMPTY, before), last)
    ensures Output(cfg, policy, TakenAll(cfg, EMPTY, before), logged, last)
         == Some(NewestVector(cfg, before + [last]))
  {
    var s := TakenAll(cfg, EMPTY, before);
    assert (before + [last])[..|before|] == before;
    SameEmitted(cfg, s, Recorded(cfg, s, last).recent, last);
  }

  /** A vector is stamped with its event. */
  lemma StampedByEvent(cfg: Config, events: seq<Event>)
    requires events != []
    ensures var v, last := NewestVector(cfg, events), events[|events| - 1];
            && v.scope == last.scope && v.symbol == last.symbol
            && v.ts == last.eventTs && v.availableTs == last.availableTs && v.sourceCutoffTs == last.availableTs
            && v.setName == cfg.setName && v.setVersion == cfg.setVersion
  {
  }

  /** In a vector each node's own output is what it computes when it reads the vector itself. */
  lemma Explained(cfg: Config, s: ScopeState, event: Event, node: Node)
    requires Orderable(cfg.plan) && node in cfg.plan
    ensures var values := Emitted(cfg, s, event).values;
            Lookup(values, node.output) == Compute(InputsFor(cfg, s, event), node, values, s.ema).value
  {
    PlanSettles(InputsFor(cfg, s, event), cfg.plan, s.ema);
    var i :| 0 <= i < |cfg.plan| && cfg.plan[i] == node;
  }

  lemma NewestExplained(cfg: Config, events: seq<Event>, node: Node)
    requires Orderable(cfg.plan) && node in cfg.plan && events != []
    ensures var s, last := TakenAll(cfg, EMPTY, events[..|events| - 1]), events[|events| - 1];
            var values := NewestVector(cfg, events).values;
            Lookup(values, node.output) == Compute(InputsFor(cfg, s, last), node, values, s.ema).value
  {
    Explained(cfg, TakenAll(cfg, EMPTY, events[..|events| - 1]), events[|events| - 1], node);
  }

  lemma PriceInVector(cfg: Config, events: seq<Event>, node: Node)
    requires Orderable(cfg.plan) && node in cfg.plan && events != [] && node.kind.Price?
    ensures var values := NewestVector(cfg, events).values;
            node.output in values && values[node.output] == events[|events| - 1].price
  {
    NewestExplained(cfg, events, node);
  }

  lemma ConstantInVector(cfg: Config, events: seq<Event>, node: Node)
    requires Orderable(cfg.plan) && node in cfg.plan && events != [] && node.kind.Constant?
    ensures var values := NewestVector(cfg, events).values;
            node.output in values && values[node.output] == node.kind.value
  {
    NewestExplained(cfg, events, node);
  }

  lemma JoinInVector(cfg: Config, events: seq<Event>, node: Node)
    requires Orderable(cfg.plan) && node in cfg.plan && events != [] && node.kind.MetadataJoin?
    ensures var values, joins := NewestVector(cfg, events).values, events[|events| - 1].joins;
            var key := (node.kind.alias, node.kind.field);
            && (node.output in values <==> key in joins)
            && (key in joins ==> values[node.output] == joins[key])
  {
    NewestExplained(cfg, events, node);
  }

  lemma DifferenceInVector(cfg: Config, events: seq<Event>, node: Node)
    requires Orderable(cfg.plan) && node in cfg.plan && events != [] && node.kind.Difference?
    ensures var values := NewestVector(cfg, events).values;
            var left, right := node.kind.left, node.kind.right;
            && (node.output in values <==> left in values && right in values)
            && (node.output in values ==> values[node.output] == values[left] - values[right])
  {
    NewestExplained(cfg, events, node);
  }

  /** Nothing unless both are there and the denominator is beyond epsilon. */
  ghost predicate IsRatio(ratio: Option<real>, top: Option<real>, bottom: Option<real>, epsilon: nonneg) {
    && (ratio.Some? <==> top.Some? && bottom.Some? && (bottom.value < 0.0 - epsilon || epsilon < bottom.value))
    && (ratio.Some? ==> ratio.value * bottom.value == top.value)
  }

  lemma RatioOf(top: Option<real>, bottom: Option<real>, epsilon: nonneg)
    ensures IsRatio(RatioValue(top, bottom, epsilon), top, bottom, epsilon)
  {
    if RatioValue(top, bottom, epsilon).Some? {
      QuotientTimes(top.value, bottom.value);
    }
  }

  lemma QuotientTimes(x: real, y: real)
    requires y != 0.0
    ensures x / y * y == x
  {
  }

  lemma RatioExplained(cfg: Config, events: seq<Event>, node: Node)
    requires Orderable(cfg.plan) && node in cfg.plan && events != [] && node.kind.Ratio?
    ensures var values := NewestVector(cfg, events).values;
            Lookup(values, node.output)
              == RatioValue(Lookup(values, node.kind.numerator), Lookup(values, node.kind.denominator),
                            node.kind.epsilon)
  {
    NewestExplained(cfg, events, node);
  }

  lemma RatioInVector(cfg: Config, events: seq<Event>, node: Node)
    requires Orderable(cfg.plan) && node in cfg.plan && events != [] && node.kind.Ratio?
    ensures var values := NewestVector(cfg, events).values;
            IsRatio(Lookup(values, node.output), Lookup(values, node.kind.numerator),
                    Lookup(values, node.kind.denominator), node.kind.epsilon)
  {
    RatioExplained(cfg, events, node);
    var values := NewestVector(cfg, events).values;
    RatioOf(Lookup(values, node.kind.numerator), Lookup(values, node.kind.denominator), node.kind.epsilon);
  }

  lemma ClipInVector(cfg: Config, events: seq<Event>, node: Node)
    requires Orderable(cfg.plan) && node in cfg.plan && events != [] && node.kind.Clip?
    ensures var values := NewestVector(cfg, events).values;
            var source, low, high := node.kind.source, node.kind.low, node.kind.high;
            && (node.output in values <==> source in values)
            && (node.output in values ==>
                  var value, clipped := values[source], values[node.output];
                  if high.Some? && (high.value < value || (low.Some? && high.value < low.value))
                  then clipped == high.value
                  else if low.Some? && value < low.value then clipped == low.value
                  else clipped == value)
  {
    NewestExplained(cfg, events, node);
  }

  /** The i-th of the first n events is the last one of them with a positive price. */
  predicate LastPositive(events: seq<Event>, n: nat, i: int)
    requires n <= |events|
  {
    0 <= i < n && 0.0 < events[i].price && forall j :: i < j < n ==> events[j].price <= 0.0
  }

  /** What is remembered as the previous price: the last positive one. */
  ghost predicate Precedes(events: seq<Event>, previous: Option<real>) {
    && (previous.Some? <==> exists i :: 0 <= i < |events| && 0.0 < events[i].price)
    && (forall i :: LastPositive(events, |events|, i) ==> previous == Some(events[i].price))
    && (previous.Some? ==> 0.0 < previous.value)
  }

  lemma PrecedesNext(front: seq<Event>, last: Event, previous: Option<real>)
    requires Precedes(front, previous)
    ensures Precedes(front + [last], if last.price > 0.0 then Some(last.price) else previous)
  {
    var events := front + [last];
    forall i | LastPositive(events, |events|, i) && last.price <= 0.0 ensures LastPositive(front, |front|, i) {
      assert forall j :: i < j < |front| ==> front[j] == events[j];
    }
    if i :| 0 <= i < |front| && 0.0 < front[i].price {
      assert 0.0 < events[i].price;
    }
    assert last.price > 0.0 ==> 0.0 < events[|front|].price;
  }

  lemma {:induction false} PreviousPrice(cfg: Config, events: seq<Event>)
    ensures Precedes(events, TakenAll(cfg, EMPTY, events).previous)
  {
    if events != [] {
      var front, last := events[..|events| - 1], events[|events| - 1];
      PreviousPrice(cfg, front);
      FrontLast(events);
      PrecedesNext(front, last, TakenAll(cfg, EMPTY, front).previous);
    }
  }

  /** A return is the logarithm of the price over the last positive one before it. */
  lemma ReturnInVector(cfg: Config, events: seq<Event>, node: Node)
    requires Orderable(cfg.plan) && node in cfg.plan && events != [] && node.kind.Return?
    ensures var values, n := NewestVector(cfg, events).values, |events| - 1;
            && (node.output in values <==>
                  0.0 < events[n].price && exists i :: 0 <= i < n && 0.0 < events[i].price)
            && forall i :: LastPositive(events, n, i) && node.output in values ==>
                 values[node.output] == cfg.num.ln(events[n].price / events[i].price)
  {
    NewestExplained(cfg, events, node);
    var n := |events| - 1;
    PreviousPrice(cfg, events[..n]);
    forall i | LastPositive(events, n, i) ensures LastPositive(events[..n], n, i) {
    }
    if i :| 0 <= i < n && 0.0 < events[i].price {
      assert events[..n][i] == events[i];
    }
  }

  /** The last `w` prices. */
  function LastPrices(events: seq<Event>, w: nat): (r: seq<real>)
    requires w <= |events|
    ensures |r| == w && forall i :: 0 <= i < w ==> r[i] == events[|events| - w + i].price
  {
    seq(w, i requires 0 <= i < w => events[|events| - w + i].price)
  }

  /** The price queue a vector is computed from. */
  lemma QueueOf(cfg: Config, events: seq<Event>, w: pos)
    requires events != []
    ensures var s, last := TakenAll(cfg, EMPTY, events[..|events| - 1]), events[|events| - 1];
            var prices := InputsFor(cfg, s, last).prices;
            && (w <= |prices| <==> w <= cfg.window && w <= |events|)
            && (w <= |prices| ==> LastN(prices, w) == LastPrices(events, w))
  {
    var front, last := events[..|events| - 1], events[|events| - 1];
    TakenAllPrices(cfg, front);
    LastNAppend(PricesOf(front), [last.price], cfg.window);
    QueueEnd(PricesOf(front) + [last.price], cfg.window, w);
    if w <= |events| {
      FrontLast(events);
      PricesEnd(front, last, w);
    }
  }

  lemma PricesEnd(front: seq<Event>, last: Event, w: pos)
    requires w <= |front| + 1
    ensures LastN(PricesOf(front) + [last.price], w) == LastPrices(front + [last], w)
  {
  }

  lemma QueueEnd(prices: seq<real>, window: pos, w: pos)
    ensures w <= |LastN(prices, window)| <==> w <= window && w <= |prices|
    ensures w <= |LastN(prices, window)| ==> LastN(LastN(prices, window), w) == LastN(prices, w)
  {
    if w <= window {
      LastNLastN(prices, window, w);
    }
  }

  function PreviousEma(cfg: Config, events: seq<Event>, w: pos): Option<real>
    requires events != []
  {
    var n := |events| - 1;
    Lookup(TakenAll(cfg, EMPTY, events[..n]).ema, EmaKey(events[n].scope, w))
  }

  /** A rolling node emits from the w-th event on, if the queue is long enough, and looks at the last w prices. */
  lemma RollingInVector(cfg: Config, events: seq<Event>, node: Node)
    requires Orderable(cfg.plan) && node in cfg.plan && events != [] && node.kind.Rolling?
    ensures var w := node.kind.window;
            Lookup(NewestVector(cfg, events).values, node.output)
              == if w <= cfg.window && w <= |events|
                 then Some(RollingValue(LastPrices(events, w), w, node.kind.aggregator, PreviousEma(cfg, events, w)))
                 else None
  {
    NewestExplained(cfg, events, node);
    QueueOf(cfg, events, node.kind.window);
    var s := TakenAll(cfg, EMPTY, events[..|events| - 1]);
    RolledValue(InputsFor(cfg, s, events[|events| - 1]), node, NewestVector(cfg, events).values, s.ema);
  }

  lemma RolledValue(x: Inputs, node: Node, context: map<string, real>, ema: AggStates)
    requires node.kind.Rolling?
    ensures var w := node.kind.window;
            Compute(x, node, context, ema).value
              == if |x.prices| < w then None
                 else Some(RollingValue(LastN(x.prices, w), w, node.kind.aggregator,
                                        Lookup(ema, EmaKey(x.event.scope, w))))
  {
  }

  lemma Quotient(sum: real, n: pos)
    ensures sum / n as real * n as real == sum
  {
  }

  lemma AverageOf(data: seq<real>, w: pos, previous: Option<real>)
    requires |data| == w
    ensures RollingValue(data, w, Sma, previous) * w as real == Sum(data)
  {
    Quotient(Sum(data), w);
  }

  /** The sum of the last w prices over w, from the w-th event on. */
  ghost predicate IsAverage(value: Option<real>, events: seq<Event>, w: pos, window: pos) {
    && (value.Some? <==> w <= window && w <= |events|)
    && (value.Some? ==> value.value * w as real == Sum(LastPrices(events, w)))
  }

  lemma AverageInVector(cfg: Config, events: seq<Event>, node: Node)
    requires Orderable(cfg.plan) && node in cfg.plan && events != []
    requires node.kind.Rolling? && node.kind.aggregator == Sma
    ensures IsAverage(Lookup(NewestVector(cfg, events).values, node.output), events, node.kind.window, cfg.window)
  {
    RollingInVector(cfg, events, node);
    AverageValue(events, node.kind.window, cfg.window, PreviousEma(cfg, events, node.kind.window));
  }

  lemma AverageValue(events: seq<Event>, w: pos, window: pos, previous: Option<real>)
    ensures IsAverage(if w <= window && w <= |events| then Some(RollingValue(LastPrices(events, w), w, Sma, previous))
                      else None, events, w, window)
  {
    if w <= window && w <= |events| {
      AverageOf(LastPrices(events, w), w, previous);
    }
  }

  lemma ExtremeOf(data: seq<real>, w: pos, aggregator: Aggregator, previous: Option<real>)
    requires |data| == w && (aggregator == Max || aggregator == Min)
    ensures RollingValue(data, w, aggregator, previous) in data
    ensures forall x :: x in data ==>
      if aggregator == Max then x <= RollingValue(data, w, aggregator, previous)
      else RollingValue(data, w, aggregator, previous) <= x
  {
  }

  ghost predicate IsExtreme(events: seq<Event>, w: nat, value: real, aggregator: Aggregator) {
    && (exists i :: |events| - w <= i < |events| && 0 <= i && value == events[i].price)
    && forall i :: |events| - w <= i < |events| && 0 <= i ==>
         if aggregator == Max then events[i].price <= value else value <= events[i].price
  }

  lemma ExtremeOfLast(events: seq<Event>, w: pos, aggregator: Aggregator, previous: Option<real>)
    requires w <= |events| && (aggregator == Max || aggregator == Min)
    ensures IsExtreme(events, w, RollingValue(LastPrices(events, w), w, aggregator, previous), aggregator)
  {
    var data, n := LastPrices(events, w), |events|;
    ExtremeOf(data, w, aggregator, previous);
    var value := RollingValue(data, w, aggregator, previous);
    var k :| 0 <= k < w && data[k] == value;
    assert value == events[n - w + k].price;
    forall i | n - w <= i < n && 0 <= i
      ensures if aggregator == Max then events[i].price <= value else value <= events[i].price
    {
      assert data[i - (n - w)] in data && data[i - (n - w)] == events[i].price;
    }
  }

  /** A maximum or minimum is that of the last w prices. */
  lemma ExtremeInVector(cfg: Config, events: seq<Event>, node: Node)
    requires Orderable(cfg.plan) && node in cfg.plan && events != []
    requires node.kind.Rolling? && (node.kind.aggregator == Max || node.kind.aggregator == Min)
    ensures var value, w := Lookup(NewestVector(cfg, events).values, node.output), node.kind.window;
            && (value.Some? <==> w <= cfg.window && w <= |events|)
            && (value.Some? ==> IsExtreme(events, w, value.value, node.kind.aggregator))
  {
    RollingInVector(cfg, events, node);
    var w := node.kind.window;
    if w <= cfg.window && w <= |events| {
      ExtremeOfLast(events, w, node.kind.aggregator, PreviousEma(cfg, events, w));
    }
  }

  /** An EMA starts at the w-th price and weighs the later ones by 2 / (w + 1) * ((w - 1) / (w + 1))^age. */
  lemma EmaInVector(cfg: Config, events: seq<Event>, scope: Scope, node: Node)
    requires Orderable(cfg.plan) && node in cfg.plan && events != [] && AllOf(events, scope)
    requires node.kind.Rolling? && node.kind.aggregator == Aggregator.Ema
    ensures Lookup(NewestVector(cfg, events).values, node.output)
         == if node.kind.window <= cfg.window && node.kind.window <= |events|
            then Some(ClosedEma(PricesOf(events), node.kind.window))
            else None
  {
    NewestEma(cfg, events, scope, node);
    if node.kind.window <= |events| {
      EmaClosed(PricesOf(events), node.kind.window);
    }
  }

  /** Of the prices 3, 6 and 9 an EMA of two is 8. */
  lemma EmaOfThree()
    ensures ClosedEma([3.0, 6.0, 9.0], 2) == 8.0
  {
    var prices := [3.0, 6.0, 9.0];
    var r := (2.0 - 1.0) / (2.0 + 1.0);
    PowerNext(r, 0);
    assert Weighted(2, prices) == [2.0 / 3.0 * Power(r, 0) * 9.0];
    SumOne(2.0 / 3.0 * Power(r, 0) * 9.0);
  }

  lemma NewestEma(cfg: Config, events: seq<Event>, scope: Scope, node: Node)
    requires Orderable(cfg.plan) && node in cfg.plan && events != [] && AllOf(events, scope)
    requires node.kind.Rolling? && node.kind.aggregator == Aggregator.Ema
    ensures Lookup(NewestVector(cfg, events).values, node.output)
         == if node.kind.window <= cfg.window then EmaOver(PricesOf(events), node.kind.window) else None
  {
    var w, n := node.kind.window, |events| - 1;
    RollingInVector(cfg, events, node);
    if w <= cfg.window {
      PlansNode(cfg, node);
      TakenEma(cfg, events[..n], scope, w);
      FrontLast(events);
      EmaOverNext(events[..n], events[n], w);
    }
  }

  lemma PlansNode(cfg: Config, node: Node)
    requires node in cfg.plan && node.kind.Rolling? && node.kind.aggregator == Aggregator.Ema
    ensures PlansEma(cfg, node.kind.window)
  {
    var i :| 0 <= i < |cfg.plan| && cfg.plan[i] == node;
  }

  /** An event in time is answered with a vector in which lags, volatilities and z-scores see back that far. */
  lemma LookbackInVector(cfg: Config, policy: Policy, e: Engine, events: seq<Event>, event: Event, node: Node)
    requires Sound(cfg, e) && Orderable(cfg.plan) && node in cfg.plan && LooksBack(node.kind)
    requires !Late(ViewOf(Run(cfg, policy, e, events).tables, event.scope), event)
    ensures var answer := StepOutput(cfg, policy, Run(cfg, policy, e, events), event);
            answer.Some? &&
            SeesBack(cfg.num, node.kind, Emissions(cfg, policy, e, events, event.scope, node.kind.source),
                     answer.value.values, Lookup(answer.value.values, node.output))
  {
    var s := ViewOf(Run(cfg, policy, e, events).tables, event.scope);
    SameEmitted(cfg, s, Recorded(cfg, s, event).recent, event);
    Explained(cfg, s, event, node);
    LookbackExact(cfg, policy, e, events, event, node, Emitted(cfg, s, event).values, s.ema);
  }
}
