/** Without a journal a late event is replayed with a bounded log of recent events only. */
module TruncatedLog {
  import opened Sequences
  import opened Sorting
  import opened FeatureModel
  import opened State
  import opened ScopeRuntime
  import opened Isolation
  import opened LateEvents

  function PricesOf(events: seq<Event>): seq<real> {
    seq(|events|, i requires 0 <= i < |events| => events[i].price)
  }

  lemma PricesOfLastN(events: seq<Event>, n: nat)
    ensures PricesOf(LastN(events, n)) == LastN(PricesOf(events), n)
  {
  }

  lemma LogHoldsWindow(cfg: Config)
    ensures cfg.window <= LogCap(cfg)
  {
  }

  /** In the sorted rows, a new event goes to its place and the others stay in order. */
  lemma SortInserts(rows: seq<Event>, event: Event, scope: Scope)
    requires AllOf(rows, scope) && event.scope == scope && DistinctTimes(rows + [event])
    ensures Sort(rows + [event], EventLe) == Insert(event, Sort(rows, EventLe), EventLe)
  {
    var all := rows + [event];
    InsertKeepsOrder(rows, event);
    RowsTieFree(all, scope);
    TieFreePermutation(all, Sort(all, EventLe), EventLe);
    SortedUnique(Sort(all, EventLe), Insert(event, Sort(rows, EventLe), EventLe), EventLe);
  }

  lemma InsertKeepsOrder(rows: seq<Event>, event: Event)
    ensures SortedBy(Sort(rows + [event], EventLe), EventLe)
      && SortedBy(Insert(event, Sort(rows, EventLe), EventLe), EventLe)
  {
    EventOrder();
    SortSorted(rows + [event], EventLe);
    SortSorted(rows, EventLe);
    InsertSorted(event, Sort(rows, EventLe), EventLe);
  }

  lemma {:induction false} InsertAfter(event: Event, front: seq<Event>, tail: seq<Event>)
    requires forall i :: 0 <= i < |front| ==> !EventLe(event, front[i])
    ensures Insert(event, front + tail, EventLe) == front + Insert(event, tail, EventLe)
  {
    if front == [] {
      assert front + tail == tail;
    } else {
      assert (front + tail)[1..] == front[1..] + tail;
      InsertAfter(event, front[1..], tail);
    }
  }

  lemma {:induction false} InsertBefore(event: Event, front: seq<Event>, tail: seq<Event>)
    requires tail != [] && EventLe(event, tail[0])
    ensures Insert(event, front + tail, EventLe) == Insert(event, front, EventLe) + tail
  {
    if front == [] {
      assert front + tail == tail;
    } else {
      assert (front + tail)[1..] == front[1..] + tail;
      InsertBefore(event, front[1..], tail);
    }
  }

  lemma InsertSplit(event: Event, front: seq<Event>, tail: seq<Event>)
    requires SortedBy(front + tail, EventLe) && tail != []
    ensures Insert(event, front + tail, EventLe) ==
      if EventLe(event, tail[0]) then Insert(event, front, EventLe) + tail
      else front + Insert(event, tail, EventLe)
  {
    if EventLe(event, tail[0]) {
      InsertBefore(event, front, tail);
    } else {
      forall i | 0 <= i < |front| ensures !EventLe(event, front[i]) {
        var all := front + tail;
        assert EventLe(all[i], all[|front|]);
      }
      InsertAfter(event, front, tail);
    }
  }

  /** The end of the log with the event put in is the end of all events with it put in. */
  lemma InsertIntoTail(event: Event, sorted: seq<Event>, n: pos)
    requires SortedBy(sorted, EventLe)
    ensures LastN(Insert(event, LastN(sorted, n), EventLe), n) == LastN(Insert(event, sorted, EventLe), n)
  {
    if |sorted| > n {
      var front, tail := sorted[..|sorted| - n], LastN(sorted, n);
      assert sorted == front + tail;
      InsertSplit(event, front, tail);
      if EventLe(event, tail[0]) {
        assert LastN([event] + tail, n) == tail == LastN(Insert(event, front, EventLe) + tail, n);
      } else {
        LastNLonger(front, Insert(event, tail, EventLe), n);
      }
    }
  }

  lemma LastNLonger<T>(front: seq<T>, tail: seq<T>, n: nat)
    requires n <= |tail|
    ensures LastN(front + tail, n) == LastN(tail, n)
  {
  }

  /** What the bounded scope is known to hold after events that read `sorted` when in order. */
  ghost predicate TruncatedTo(cfg: Config, s: ScopeState, sorted: seq<Event>) {
    && s.recent == LastN(sorted, LogCap(cfg))
    && s.prices == LastN(PricesOf(sorted), cfg.window)
    && s.watermark == if sorted == [] then None else Some(sorted[|sorted| - 1].availableTs)
  }

  lemma {:induction false} TakenAllPrices(cfg: Config, events: seq<Event>)
    ensures TakenAll(cfg, EMPTY, events).prices == LastN(PricesOf(events), cfg.window)
  {
    if events != [] {
      var front, last := events[..|events| - 1], events[|events| - 1];
      TakenAllPrices(cfg, front);
      LastNAppend(PricesOf(front), [last.price], cfg.window);
      assert PricesOf(events) == PricesOf(front) + [last.price];
    }
  }

  lemma TakenAllTruncated(cfg: Config, events: seq<Event>)
    ensures TruncatedTo(cfg, TakenAll(cfg, EMPTY, events), events)
  {
    TakenAllRecent(cfg, events);
    TakenAllPrices(cfg, events);
  }

  /** A state taken through `log` looks as if taken through `all` when they end alike. */
  lemma SameTailTruncated(cfg: Config, log: seq<Event>, all: seq<Event>)
    requires LastN(log, LogCap(cfg)) == LastN(all, LogCap(cfg))
    ensures TruncatedTo(cfg, TakenAll(cfg, EMPTY, log), all)
  {
    var cap := LogCap(cfg);
    TakenAllTruncated(cfg, log);
    PricesOfLastN(log, cap);
    PricesOfLastN(all, cap);
    LogHoldsWindow(cfg);
    LastNLastN(PricesOf(log), cap, cfg.window);
    LastNLastN(PricesOf(all), cap, cfg.window);
    if log != [] {
      assert LastN(log, cap)[|LastN(log, cap)| - 1] == log[|log| - 1];
      assert LastN(all, cap)[|LastN(all, cap)| - 1] == all[|all| - 1];
    }
  }

  lemma NextTruncated(cfg: Config, s: ScopeState, sorted: seq<Event>, event: Event)
    requires TruncatedTo(cfg, s, sorted)
    ensures TruncatedTo(cfg, Taken(cfg, s, event), sorted + [event])
  {
    LastNAppend(sorted, [event], LogCap(cfg));
    LastNAppend(PricesOf(sorted), [event.price], cfg.window);
    assert PricesOf(sorted + [event]) == PricesOf(sorted) + [event.price];
  }

  lemma TailDistinct(rows: seq<Event>, event: Event, n: nat)
    requires AllOf(rows, event.scope) && DistinctTimes(rows + [event])
    ensures var tail := LastN(Sort(rows, EventLe), n);
            AllOf(tail, event.scope) && DistinctTimes(tail + [event])
  {
    SortAllOf(rows, event.scope);
    TailMembers(rows, event, n);
    DistinctMembers(rows + [event], LastN(Sort(rows, EventLe), n) + [event]);
  }

  lemma TailMembers(rows: seq<Event>, event: Event, n: nat)
    ensures Among(LastN(Sort(rows, EventLe), n) + [event], rows + [event])
  {
    var sorted := Sort(rows, EventLe);
    var tail := LastN(sorted, n);
    SortMembers(rows, EventLe);
    forall i | 0 <= i < |tail| ensures tail[i] in rows {
      assert tail[i] in sorted;
    }
  }

  /** The events a late arrival is replayed with end as all events do. */
  lemma LateLog(cfg: Config, rows: seq<Event>, event: Event)
    requires AllOf(rows, event.scope) && DistinctTimes(rows + [event])
    ensures var log := Sort(LastN(Sort(rows, EventLe), LogCap(cfg)) + [event], EventLe);
            && log == Insert(event, LastN(Sort(rows, EventLe), LogCap(cfg)), EventLe)
            && LastN(log, LogCap(cfg)) == LastN(Sort(rows + [event], EventLe), LogCap(cfg))
  {
    EventOrder();
    SortSorted(rows, EventLe);
    SortInserts(rows, event, event.scope);
    TailInserts(rows, event, LogCap(cfg));
    InsertIntoTail(event, Sort(rows, EventLe), LogCap(cfg));
  }

  lemma TailInserts(rows: seq<Event>, event: Event, n: nat)
    requires AllOf(rows, event.scope) && DistinctTimes(rows + [event])
    ensures var tail := LastN(Sort(rows, EventLe), n);
            Sort(tail + [event], EventLe) == Insert(event, tail, EventLe)
  {
    var tail := LastN(Sort(rows, EventLe), n);
    TailDistinct(rows, event, n);
    SortInserts(tail, event, event.scope);
    TailSorted(rows, n);
    SortIdentity(tail, EventLe);
  }

  lemma TailSorted(rows: seq<Event>, n: nat)
    ensures SortedBy(LastN(Sort(rows, EventLe), n), EventLe)
  {
    EventOrder();
    SortSorted(rows, EventLe);
  }

  lemma LateTruncated(cfg: Config, s: ScopeState, rows: seq<Event>, event: Event)
    requires AllOf(rows, event.scope) && DistinctTimes(rows + [event])
    requires TruncatedTo(cfg, s, Sort(rows, EventLe))
    ensures TruncatedTo(cfg, Rebuilt(cfg, s.recent + [event]), Sort(rows + [event], EventLe))
  {
    LateLog(cfg, rows, event);
    RebuiltIsTaken(cfg, s.recent + [event]);
    SameTailTruncated(cfg, Sort(s.recent + [event], EventLe), Sort(rows + [event], EventLe));
  }

  lemma NotLateIsNewest(cfg: Config, s: ScopeState, rows: seq<Event>, event: Event)
    requires AllOf(rows, event.scope) && DistinctTimes(rows + [event]) && event !in rows
    requires TruncatedTo(cfg, s, Sort(rows, EventLe)) && !Late(s, event)
    ensures Sort(rows + [event], EventLe) == Sort(rows, EventLe) + [event]
  {
    if rows != [] {
      SortedLast(rows);
    }
    NewIsNewest(rows, event);
    SortAppendNewest(rows, event);
  }

  /** One arrival, late or not, keeps the bounded log and the price queue exact. */
  lemma ArrivalTruncated(cfg: Config, s: ScopeState, rows: seq<Event>, event: Event)
    requires AllOf(rows, event.scope) && DistinctTimes(rows + [event]) && event !in rows
    requires TruncatedTo(cfg, s, Sort(rows, EventLe))
    ensures TruncatedTo(cfg, Updated(cfg, Recompute, s, None, event), Sort(rows + [event], EventLe))
  {
    if Late(s, event) {
      LateTruncated(cfg, s, rows, event);
    } else {
      NotLateIsNewest(cfg, s, rows, event);
      NextTruncated(cfg, s, Sort(rows, EventLe), event);
    }
  }

  /** An engine as it is created without a journal. */
  function Unlogged(cfg: Config): Engine {
    Fresh(cfg).(journal := None)
  }

  /**
    * In every reachable state the log is the tail of all the scope's events in order and the price
    * queue the tail of their prices, however late some of them came.
    */
  lemma {:induction false} TruncatedWindowsExact(cfg: Config, events: seq<Event>, scope: Scope)
    requires NoRepeats(events) && DistinctTimes(events)
    ensures var e := Run(cfg, Recompute, Unlogged(cfg), events);
            && e.journal == None && Sound(cfg, e)
            && TruncatedTo(cfg, ViewOf(e.tables, scope), Sort(Only(scope, events), EventLe))
  {
    FreshSound(cfg);
    if events != [] {
      var front, last := events[..|events| - 1], events[|events| - 1];
      FrontLast(events);
      TruncatedWindowsExact(cfg, front, scope);
      var e := Run(cfg, Recompute, Unlogged(cfg), front);
      StepView(cfg, Recompute, e, last, scope);
      OnlyLast(scope, events);
      if scope == last.scope {
        OwnRows(events);
        ArrivalTruncated(cfg, ViewOf(e.tables, scope), Only(scope, front), last);
      } else {
        assert Only(scope, events) == Only(scope, front);
      }
    }
  }

  lemma OwnRows(events: seq<Event>)
    requires NoRepeats(events) && DistinctTimes(events) && events != []
    ensures var front, last := events[..|events| - 1], events[|events| - 1];
            var rows := Only(last.scope, front);
            AllOf(rows, last.scope) && DistinctTimes(rows + [last]) && last !in rows
  {
    var front, last := events[..|events| - 1], events[|events| - 1];
    var rows := Only(last.scope, front);
    OnlyAllOf(last.scope, front);
    var all := rows + [last];
    forall i | 0 <= i < |all| ensures all[i] in events {
      if i < |rows| {
        FilterMembers(front, (e: Event) => e.scope == last.scope, rows[i]);
      }
    }
    DistinctMembers(events, all);
    FilterMembers(front, (e: Event) => e.scope == last.scope, last);
    assert last !in front;
  }
}
