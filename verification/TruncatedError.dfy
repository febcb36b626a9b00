/** What replaying a bounded log costs: nothing for windows, a known error for EMAs. */
module TruncatedError {
  import opened Sequences
  import opened Sorting
  import opened FeatureModel
  import opened Nodes
  import opened State
  import opened ScopeRuntime
  import opened Isolation
  import opened LateEvents
  import opened PlanOrder
  import opened Ema
  import opened TruncatedLog

  predicate PlansEma(cfg: Config, w: pos) {
    exists i :: 0 <= i < |cfg.plan| && cfg.plan[i].kind == Rolling(w, Aggregator.Ema)
  }

  /** One event moves the EMA of a window by one step once the window is full. */
  lemma ComputedEma(cfg: Config, s: ScopeState, event: Event, w: pos)
    requires Orderable(cfg.plan) && PlansEma(cfg, w)
    ensures var key := EmaKey(event.scope, w);
            Lookup(Computed(cfg, s, event).ema, key) ==
              if w <= |LastN(s.prices + [event.price], cfg.window)|
              then Some(EmaStep(w, Lookup(s.ema, key), event.price))
              else Lookup(s.ema, key)
  {
    var x := InputsFor(cfg, s, event);
    var key := EmaKey(event.scope, w);
    PlanSettles(x, cfg.plan, s.ema);
    var i :| 0 <= i < |cfg.plan| && cfg.plan[i].kind == Rolling(w, Aggregator.Ema);
    assert IsEma(event.scope, cfg.plan[i], key);
    assert HasEma(x, cfg.plan, key) <==> w <= |x.prices|;
    assert x.prices[|x.prices| - 1] == event.price;
  }

  lemma TakenNextEma(cfg: Config, s: ScopeState, n: nat, event: Event, w: pos)
    requires Orderable(cfg.plan) && PlansEma(cfg, w) && w <= cfg.window
    requires |s.prices| == if n <= cfg.window then n else cfg.window
    ensures var key := EmaKey(event.scope, w);
            Lookup(Taken(cfg, s, event).ema, key) ==
              if w <= n + 1 then Some(EmaStep(w, Lookup(s.ema, key), event.price)) else Lookup(s.ema, key)
  {
    ComputedEma(cfg, Recorded(cfg, s, event), event, w);
  }

  lemma EmaOverNext(events: seq<Event>, event: Event, w: pos)
    ensures EmaOver(PricesOf(events + [event]), w) ==
      if w <= |events| + 1 then Some(EmaStep(w, EmaOver(PricesOf(events), w), event.price))
      else EmaOver(PricesOf(events), w)
  {
    var prices := PricesOf(events + [event]);
    assert prices[..|prices| - 1] == PricesOf(events);
  }

  lemma {:induction false} TakenEma(cfg: Config, events: seq<Event>, scope: Scope, w: pos)
    requires Orderable(cfg.plan) && PlansEma(cfg, w) && w <= cfg.window && AllOf(events, scope)
    ensures Lookup(TakenAll(cfg, EMPTY, events).ema, EmaKey(scope, w)) == EmaOver(PricesOf(events), w)
  {
    if events != [] {
      var front, last := events[..|events| - 1], events[|events| - 1];
      TakenEma(cfg, front, scope, w);
      FrontLast(events);
      TakenEmaNext(cfg, front, last, w);
    }
  }

  lemma TakenEmaNext(cfg: Config, front: seq<Event>, last: Event, w: pos)
    requires Orderable(cfg.plan) && PlansEma(cfg, w) && w <= cfg.window
    requires Lookup(TakenAll(cfg, EMPTY, front).ema, EmaKey(last.scope, w)) == EmaOver(PricesOf(front), w)
    ensures Lookup(TakenAll(cfg, EMPTY, front + [last]).ema, EmaKey(last.scope, w))
      == EmaOver(PricesOf(front + [last]), w)
  {
    TakenNext(cfg, front, last);
    TakenAllPrices(cfg, front);
    NextEma(cfg, TakenAll(cfg, EMPTY, front), front, last, w);
  }

  lemma NextEma(cfg: Config, s: ScopeState, events: seq<Event>, event: Event, w: pos)
    requires Orderable(cfg.plan) && PlansEma(cfg, w) && w <= cfg.window
    requires s.prices == LastN(PricesOf(events), cfg.window)
    requires Lookup(s.ema, EmaKey(event.scope, w)) == EmaOver(PricesOf(events), w)
    ensures Lookup(Taken(cfg, s, event).ema, EmaKey(event.scope, w)) == EmaOver(PricesOf(events + [event]), w)
  {
    TakenNextEma(cfg, s, |events|, event, w);
    EmaOverNext(events, event, w);
  }

  /** The error a bounded log admits for an EMA of window `w` over prices in [low, high]. */
  function EmaBound(cfg: Config, w: pos, low: real, high: real): real
    requires w <= cfg.window
  {
    LogHoldsWindow(cfg);
    Shrunk(w, LogCap(cfg) - w, high - low)
  }

  lemma BoundIsPower(cfg: Config, w: pos, low: real, high: real)
    requires w <= cfg.window
    ensures var cap := if cfg.window * 4 < 32 then 32 else cfg.window * 4;
            EmaBound(cfg, w, low, high) == Power(1.0 - 2.0 / (w as real + 1.0), cap - w) * (high - low)
  {
    ShrunkIsPower(w, LogCap(cfg) - w, high - low);
  }

  lemma BoundNotNegative(cfg: Config, w: pos, low: real, high: real)
    requires w <= cfg.window && low <= high
    ensures 0.0 <= EmaBound(cfg, w, low, high)
  {
    LogHoldsWindow(cfg);
    ShrunkNotNegative(w, LogCap(cfg) - w, high - low);
  }

  /** A common step never widens a gap. */
  lemma StepNear(w: pos, a: Option<real>, b: Option<real>, price: real, bound: real)
    requires Near(a, b, bound) && 0.0 <= bound
    ensures Near(Some(EmaStep(w, a, price)), Some(EmaStep(w, b, price)), bound)
  {
    if a.Some? {
      StepsNear(w, a.value, b.value, price, bound);
    } else {
      assert EmaStep(w, a, price) == price == EmaStep(w, b, price);
    }
  }

  lemma StepsNear(w: pos, x: real, y: real, price: real, bound: real)
    requires Distance(x, y) <= bound && 0.0 <= bound
    ensures Distance(EmaStep(w, Some(x), price), EmaStep(w, Some(y), price)) <= bound
  {
    var gap := EmaStep(w, Some(x), price) - EmaStep(w, Some(y), price);
    AlphaRange(w);
    StepDifference(Alpha(w), price, x, y);
    GapShrinks(1.0 - Alpha(w), x - y, gap, bound);
  }

  lemma GapShrinks(share: real, gap: real, next: real, bound: real)
    requires 0.0 <= share <= 1.0 && Abs(gap) <= bound && next == share * gap
    ensures Abs(next) <= bound
  {
    ShrinkDistance(share, gap, bound);
    Scale(bound, share);
  }

  lemma NextNear(cfg: Config, s: ScopeState, sorted: seq<Event>, event: Event, w: pos, bound: real)
    requires Orderable(cfg.plan) && PlansEma(cfg, w) && w <= cfg.window && 0.0 <= bound
    requires s.prices == LastN(PricesOf(sorted), cfg.window)
    requires Near(Lookup(s.ema, EmaKey(event.scope, w)), EmaOver(PricesOf(sorted), w), bound)
    ensures Near(Lookup(Taken(cfg, s, event).ema, EmaKey(event.scope, w)), EmaOver(PricesOf(sorted + [event]), w),
      bound)
  {
    TakenNextEma(cfg, s, |sorted|, event, w);
    EmaOverNext(sorted, event, w);
    StepNear(w, Lookup(s.ema, EmaKey(event.scope, w)), EmaOver(PricesOf(sorted), w), event.price, bound);
  }

  /** A log that ends with the same `LogCap` events gives an EMA within the bound. */
  lemma TailNear(cfg: Config, log: seq<Event>, all: seq<Event>, w: pos, low: real, high: real)
    requires w <= cfg.window && low <= high
    requires LastN(log, LogCap(cfg)) == LastN(all, LogCap(cfg))
    requires log == all || (LogCap(cfg) <= |log| && LogCap(cfg) <= |all|)
    requires Within(PricesOf(log), low, high) && Within(PricesOf(all), low, high)
    ensures Near(EmaOver(PricesOf(log), w), EmaOver(PricesOf(all), w), EmaBound(cfg, w, low, high))
  {
    LogHoldsWindow(cfg);
    if log == all {
      BoundNotNegative(cfg, w, low, high);
    } else {
      PricesOfLastN(log, LogCap(cfg));
      PricesOfLastN(all, LogCap(cfg));
      TailNearPrices(PricesOf(log), PricesOf(all), LogCap(cfg), w, low, high);
    }
  }

  lemma TailNearPrices(a: seq<real>, b: seq<real>, n: nat, w: pos, low: real, high: real)
    requires w <= n <= |a| && n <= |b| && LastN(a, n) == LastN(b, n)
    requires Within(a, low, high) && Within(b, low, high)
    ensures Near(EmaOver(a, w), EmaOver(b, w), Shrunk(w, n - w, high - low))
  {
    var rest := LastN(a, n)[w..];
    SplitTail(a, n, w);
    SplitTail(b, n, w);
    SharedRest(a, b, a[..|a| - (n - w)], b[..|b| - (n - w)], rest, w, low, high);
  }

  lemma SplitTail(a: seq<real>, n: nat, w: nat)
    requires w <= n <= |a|
    ensures a == a[..|a| - (n - w)] + LastN(a, n)[w..]
    ensures |LastN(a, n)[w..]| == n - w
  {
  }

  lemma MembersWithin(some: seq<Event>, all: seq<Event>, low: real, high: real)
    requires Within(PricesOf(all), low, high) && forall i :: 0 <= i < |some| ==> some[i] in all
    ensures Within(PricesOf(some), low, high)
  {
    forall i | 0 <= i < |some| ensures low <= PricesOf(some)[i] <= high {
      var j :| 0 <= j < |all| && all[j] == some[i];
      assert PricesOf(all)[j] == some[i].price;
    }
  }

  lemma SortWithin(rows: seq<Event>, low: real, high: real)
    requires Within(PricesOf(rows), low, high)
    ensures Within(PricesOf(Sort(rows, EventLe)), low, high)
  {
    var sorted := Sort(rows, EventLe);
    forall i | 0 <= i < |sorted| ensures sorted[i] in rows {
      assert sorted[i] in multiset(rows);
    }
    MembersWithin(sorted, rows, low, high);
  }

  lemma LateNear(cfg: Config, rows: seq<Event>, event: Event, w: pos, low: real, high: real)
    requires Orderable(cfg.plan) && PlansEma(cfg, w) && w <= cfg.window
    requires AllOf(rows, event.scope) && DistinctTimes(rows + [event])
    requires Within(PricesOf(rows + [event]), low, high)
    ensures var source := LastN(Sort(rows, EventLe), LogCap(cfg)) + [event];
            Near(Lookup(Rebuilt(cfg, source).ema, EmaKey(event.scope, w)),
                 EmaOver(PricesOf(Sort(rows + [event], EventLe)), w), EmaBound(cfg, w, low, high))
  {
    var source := LastN(Sort(rows, EventLe), LogCap(cfg)) + [event];
    assert low <= PricesOf(rows + [event])[|rows|] <= high;
    LateLog(cfg, rows, event);
    LateLogWithin(cfg, rows, event, low, high);
    ShortLog(cfg, rows, event);
    TailNear(cfg, Sort(source, EventLe), Sort(rows + [event], EventLe), w, low, high);
    RebuiltEma(cfg, source, event.scope, w);
  }

  lemma RebuiltEma(cfg: Config, source: seq<Event>, scope: Scope, w: pos)
    requires Orderable(cfg.plan) && PlansEma(cfg, w) && w <= cfg.window && AllOf(source, scope)
    ensures Lookup(Rebuilt(cfg, source).ema, EmaKey(scope, w)) == EmaOver(PricesOf(Sort(source, EventLe)), w)
  {
    RebuiltIsTaken(cfg, source);
    SortAllOf(source, scope);
    TakenEma(cfg, Sort(source, EventLe), scope, w);
  }

  lemma LateLogWithin(cfg: Config, rows: seq<Event>, event: Event, low: real, high: real)
    requires AllOf(rows, event.scope) && DistinctTimes(rows + [event])
    requires Within(PricesOf(rows + [event]), low, high)
    ensures var source := LastN(Sort(rows, EventLe), LogCap(cfg)) + [event];
            && AllOf(source, event.scope)
            && Within(PricesOf(Sort(source, EventLe)), low, high)
            && Within(PricesOf(Sort(rows + [event], EventLe)), low, high)
  {
    var source := LastN(Sort(rows, EventLe), LogCap(cfg)) + [event];
    TailDistinct(rows, event, LogCap(cfg));
    SortWithin(rows + [event], low, high);
    SourceMembers(rows, event, LogCap(cfg));
    MembersWithin(source, rows + [event], low, high);
    SortWithin(source, low, high);
  }

  /** A log that was not yet full is all there is. */
  lemma ShortLog(cfg: Config, rows: seq<Event>, event: Event)
    requires AllOf(rows, event.scope) && DistinctTimes(rows + [event])
    ensures var source := LastN(Sort(rows, EventLe), LogCap(cfg)) + [event];
            Sort(source, EventLe) == Sort(rows + [event], EventLe)
            || (LogCap(cfg) <= |source| && LogCap(cfg) <= |rows| + 1)
  {
    if |rows| < LogCap(cfg) {
      LateLog(cfg, rows, event);
      SortInserts(rows, event, event.scope);
    }
  }

  lemma SourceMembers(rows: seq<Event>, event: Event, n: nat)
    ensures var source := LastN(Sort(rows, EventLe), n) + [event];
            forall i :: 0 <= i < |source| ==> source[i] in rows + [event]
  {
    var sorted := Sort(rows, EventLe);
    var source := LastN(sorted, n) + [event];
    forall i | 0 <= i < |source| ensures source[i] in rows + [event] {
      if i < |source| - 1 {
        assert source[i] in multiset(sorted);
        assert source[i] in multiset(rows);
      }
    }
  }

  lemma NewestNear(cfg: Config, s: ScopeState, rows: seq<Event>, event: Event, w: pos, bound: real)
    requires Orderable(cfg.plan) && PlansEma(cfg, w) && w <= cfg.window && 0.0 <= bound
    requires AllOf(rows, event.scope) && DistinctTimes(rows + [event]) && event !in rows
    requires TruncatedTo(cfg, s, Sort(rows, EventLe)) && !Late(s, event)
    requires Near(Lookup(s.ema, EmaKey(event.scope, w)), EmaOver(PricesOf(Sort(rows, EventLe)), w), bound)
    ensures Near(Lookup(Taken(cfg, s, event).ema, EmaKey(event.scope, w)),
                 EmaOver(PricesOf(Sort(rows + [event], EventLe)), w), bound)
  {
    NotLateIsNewest(cfg, s, rows, event);
    NextNear(cfg, s, Sort(rows, EventLe), event, w, bound);
  }

  lemma ArrivalNear(cfg: Config, s: ScopeState, rows: seq<Event>, event: Event, w: pos, low: real, high: real)
    requires Orderable(cfg.plan) && PlansEma(cfg, w) && w <= cfg.window
    requires AllOf(rows, event.scope) && DistinctTimes(rows + [event]) && event !in rows
    requires TruncatedTo(cfg, s, Sort(rows, EventLe))
    requires Within(PricesOf(rows + [event]), low, high)
    requires Near(Lookup(s.ema, EmaKey(event.scope, w)), EmaOver(PricesOf(Sort(rows, EventLe)), w),
      EmaBound(cfg, w, low, high))
    ensures Near(Lookup(Updated(cfg, Recompute, s, None, event).ema, EmaKey(event.scope, w)),
                 EmaOver(PricesOf(Sort(rows + [event], EventLe)), w), EmaBound(cfg, w, low, high))
  {
    UpdatedIs(cfg, s, rows, event);
    if Late(s, event) {
      LateNear(cfg, rows, event, w, low, high);
    } else {
      assert low <= PricesOf(rows + [event])[|rows|] <= high;
      BoundNotNegative(cfg, w, low, high);
      NewestNear(cfg, s, rows, event, w, EmaBound(cfg, w, low, high));
    }
  }

  lemma UpdatedIs(cfg: Config, s: ScopeState, rows: seq<Event>, event: Event)
    requires TruncatedTo(cfg, s, Sort(rows, EventLe))
    ensures Updated(cfg, Recompute, s, None, event).ema
         == if Late(s, event) then Rebuilt(cfg, LastN(Sort(rows, EventLe), LogCap(cfg)) + [event]).ema
           else Taken(cfg, s, event).ema
  {
    UpdatedUnlogged(cfg, s, event);
  }

  lemma UpdatedUnlogged(cfg: Config, s: ScopeState, event: Event)
    ensures Updated(cfg, Recompute, s, None, event)
         == if Late(s, event) then Rebuilt(cfg, s.recent + [event]) else Taken(cfg, s, event)
  {
  }

  /**
    * In every reachable state without a journal, an EMA is at most (1 - alpha)^(LogCap - w) times
    * the scope's price range away from that of one in-order replay of all its events.
    */
  lemma {:induction false} TruncatedEmaError(cfg: Config, events: seq<Event>, scope: Scope, w: pos, low: real,
                                             high: real)
    requires NoRepeats(events) && DistinctTimes(events)
    requires Orderable(cfg.plan) && PlansEma(cfg, w) && w <= cfg.window
    requires Within(PricesOf(Only(scope, events)), low, high)
    ensures var e := Run(cfg, Recompute, Unlogged(cfg), events);
            Near(Lookup(ViewOf(e.tables, scope).ema, EmaKey(scope, w)),
                 EmaOver(PricesOf(Sort(Only(scope, events), EventLe)), w), EmaBound(cfg, w, low, high))
  {
    FreshSound(cfg);
    if events != [] {
      var front, last := events[..|events| - 1], events[|events| - 1];
      FrontLast(events);
      OnlyLast(scope, events);
      TruncatedWindowsExact(cfg, front, scope);
      var e := Run(cfg, Recompute, Unlogged(cfg), front);
      StepView(cfg, Recompute, e, last, scope);
      var rows := Only(scope, front);
      FrontWithin(rows, last, scope, Only(scope, events), low, high);
      TruncatedEmaError(cfg, front, scope, w, low, high);
      if scope == last.scope {
        OwnRows(events);
        ArrivalNear(cfg, ViewOf(e.tables, scope), rows, last, w, low, high);
      } else {
        assert Only(scope, events) == rows;
      }
    }
  }

  lemma FrontWithin(rows: seq<Event>, last: Event, scope: Scope, all: seq<Event>, low: real, high: real)
    requires all == rows + if last.scope == scope then [last] else []
    requires Within(PricesOf(all), low, high)
    ensures Within(PricesOf(rows), low, high)
  {
    forall i | 0 <= i < |rows| ensures low <= PricesOf(rows)[i] <= high {
      assert PricesOf(all)[i] == rows[i].price;
    }
  }

  /** The reference of `TruncatedEmaError` is the EMA of an in-order replay. */
  lemma ReferenceEma(cfg: Config, events: seq<Event>, scope: Scope, w: pos)
    requires Orderable(cfg.plan) && PlansEma(cfg, w) && w <= cfg.window
    ensures EmaOver(PricesOf(Sort(Only(scope, events), EventLe)), w)
         == Lookup(InOrder(cfg, Only(scope, events)).ema, EmaKey(scope, w))
  {
    OnlyAllOf(scope, events);
    SortAllOf(Only(scope, events), scope);
    TakenEma(cfg, Sort(Only(scope, events), EventLe), scope, w);
  }

  predicate IsWindow(node: Node) {
    node.kind.Rolling? && !node.kind.aggregator.Ema?
  }

  /** Averages, maxima and minima depend on the price queue alone. */
  lemma SameQueueSameWindow(cfg: Config, s: ScopeState, event: Event, t: ScopeState, other: Event, i: nat)
    requires Orderable(cfg.plan) && i < |cfg.plan| && IsWindow(cfg.plan[i])
    requires LastN(s.prices + [event.price], cfg.window) == LastN(t.prices + [other.price], cfg.window)
    ensures Lookup(Emitted(cfg, s, event).values, cfg.plan[i].output)
         == Lookup(Emitted(cfg, t, other).values, cfg.plan[i].output)
  {
    WindowFromQueue(cfg, s, event, i);
    WindowFromQueue(cfg, t, other, i);
  }

  /** The value of an average, maximum or minimum over the queue `prices`. */
  function WindowValue(prices: seq<real>, node: Node): Option<real>
    requires IsWindow(node)
  {
    var w := node.kind.window;
    if |prices| < w then None else Some(RollingValue(LastN(prices, w), w, node.kind.aggregator, None))
  }

  lemma WindowFromQueue(cfg: Config, s: ScopeState, event: Event, i: nat)
    requires Orderable(cfg.plan) && i < |cfg.plan| && IsWindow(cfg.plan[i])
    ensures Lookup(Emitted(cfg, s, event).values, cfg.plan[i].output)
         == WindowValue(LastN(s.prices + [event.price], cfg.window), cfg.plan[i])
  {
    PlanSettles(InputsFor(cfg, s, event), cfg.plan, s.ema);
  }

  /** What an update answers has the averages, maxima and minima of the full in-order replay. */
  lemma ReplyWindowsExact(cfg: Config, s: ScopeState, rows: seq<Event>, event: Event, i: nat)
    requires Orderable(cfg.plan) && i < |cfg.plan| && IsWindow(cfg.plan[i])
    requires AllOf(rows, event.scope) && DistinctTimes(rows + [event]) && event !in rows
    requires TruncatedTo(cfg, s, Sort(rows, EventLe))
    ensures var reply := Output(cfg, Recompute, s, None, event);
            reply.Some? && Lookup(reply.value.values, cfg.plan[i].output)
              == Lookup(NewestVector(cfg, Sort(rows + [event], EventLe)).values, cfg.plan[i].output)
  {
    if Late(s, event) {
      LateReplyWindow(cfg, s, rows, event, i);
    } else {
      NotLateIsNewest(cfg, s, rows, event);
      NextReplyWindow(cfg, s, Sort(rows, EventLe), event, i);
    }
  }

  lemma NextReplyWindow(cfg: Config, s: ScopeState, sorted: seq<Event>, event: Event, i: nat)
    requires Orderable(cfg.plan) && i < |cfg.plan| && IsWindow(cfg.plan[i])
    requires s.prices == LastN(PricesOf(sorted), cfg.window)
    ensures Lookup(Emitted(cfg, Recorded(cfg, s, event), event).values, cfg.plan[i].output)
         == Lookup(NewestVector(cfg, sorted + [event]).values, cfg.plan[i].output)
  {
    var all := sorted + [event];
    assert all[..|all| - 1] == sorted;
    TakenAllPrices(cfg, sorted);
    SameQueueSameWindow(cfg, Recorded(cfg, s, event), event, TakenAll(cfg, EMPTY, sorted), event, i);
  }

  lemma ReplyIs(cfg: Config, source: seq<Event>)
    requires source != []
    ensures var log := Sort(source, EventLe);
            var before := Replayed(cfg, EMPTY.(recent := LastN(log, LogCap(cfg))), log[..|log| - 1]);
            RebuiltVector(cfg, source) == Some(Emitted(cfg, before, log[|log| - 1]))
  {
  }

  lemma LateReplyWindow(cfg: Config, s: ScopeState, rows: seq<Event>, event: Event, i: nat)
    requires Orderable(cfg.plan) && i < |cfg.plan| && IsWindow(cfg.plan[i])
    requires AllOf(rows, event.scope) && DistinctTimes(rows + [event])
    requires s.recent == LastN(Sort(rows, EventLe), LogCap(cfg))
    ensures var reply := RebuiltVector(cfg, s.recent + [event]);
            reply.Some? && Lookup(reply.value.values, cfg.plan[i].output)
              == Lookup(NewestVector(cfg, Sort(rows + [event], EventLe)).values, cfg.plan[i].output)
  {
    var log, all := Sort(s.recent + [event], EventLe), Sort(rows + [event], EventLe);
    var m, n := |log| - 1, |all| - 1;
    ReplyIs(cfg, s.recent + [event]);
    LateLog(cfg, rows, event);
    SameTailTruncated(cfg, log, all);
    TakenAllPrices(cfg, log);
    TakenAllPrices(cfg, all);
    ReplayedIsTaken(cfg, log[..m], LastN(log, LogCap(cfg)));
    var before := Replayed(cfg, EMPTY.(recent := LastN(log, LogCap(cfg))), log[..m]);
    SameQueueSameWindow(cfg, before, log[m], TakenAll(cfg, EMPTY, all[..n]), all[n], i);
  }
}
