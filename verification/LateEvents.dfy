/** With a journal, policy "recompute" makes the order of arrival irrelevant. */
module LateEvents {
  import opened Sequences
  import opened Sorting
  import opened FeatureModel
  import opened State
  import opened ScopeRuntime
  import opened Isolation

  /** Different events of one scope become available at different times. */
  ghost predicate DistinctTimes(events: seq<Event>) {
    forall i, j :: 0 <= i < |events| && 0 <= j < |events|
      && events[i].scope == events[j].scope && events[i].availableTs == events[j].availableTs
      ==> events[i] == events[j]
  }

  ghost predicate NoRepeats(events: seq<Event>) {
    forall i, j :: 0 <= i < j < |events| ==> events[i] != events[j]
  }

  /** An event delivered again is by then older than something its scope has seen. */
  ghost predicate RepeatsAreOld(events: seq<Event>) {
    forall n :: 0 <= n < |events| && events[n] in events[..n] ==> Overtaken(events[..n], events[n])
  }

  ghost predicate Overtaken(seen: seq<Event>, event: Event) {
    exists m :: 0 <= m < |seen| && seen[m].scope == event.scope && event.availableTs < seen[m].availableTs
  }

  lemma {:induction false} TakenAllRecent(cfg: Config, events: seq<Event>)
    ensures TakenAll(cfg, EMPTY, events).recent == LastN(events, LogCap(cfg))
  {
    if events != [] {
      var front, last := events[..|events| - 1], events[|events| - 1];
      TakenAllRecent(cfg, front);
      LastNAppend(front, [last], LogCap(cfg));
      FrontLast(events);
    }
  }

  lemma {:induction false} ReplayedIsTaken(cfg: Config, events: seq<Event>, log: seq<Event>)
    ensures Replayed(cfg, EMPTY.(recent := log), events) == TakenAll(cfg, EMPTY, events).(recent := log)
  {
    if events != [] {
      ReplayedIsTaken(cfg, events[..|events| - 1], log);
    }
  }

  /** A rebuild leaves exactly the state of taking the sorted events in turn. */
  lemma RebuiltIsTaken(cfg: Config, events: seq<Event>)
    ensures Rebuilt(cfg, events) == TakenAll(cfg, EMPTY, Sort(events, EventLe))
  {
    var sorted := Sort(events, EventLe);
    ReplayedIsTaken(cfg, sorted, LastN(sorted, LogCap(cfg)));
    TakenAllRecent(cfg, sorted);
  }

  lemma SortedTwice(events: seq<Event>)
    ensures Sort(Sort(events, EventLe), EventLe) == Sort(events, EventLe)
  {
    EventOrder();
    SortSorted(events, EventLe);
    SortIdentity(Sort(events, EventLe), EventLe);
  }

  lemma RowsTieFree(rows: seq<Event>, scope: Scope)
    requires DistinctTimes(rows) && AllOf(rows, scope)
    ensures TieFree(rows, EventLe)
  {
  }

  lemma SortAppendNewest(rows: seq<Event>, event: Event)
    requires forall i :: 0 <= i < |rows| ==> rows[i].availableTs < event.availableTs
    ensures Sort(rows + [event], EventLe) == Sort(rows, EventLe) + [event]
  {
    EventOrder();
    var a, b := Sort(rows + [event], EventLe), Sort(rows, EventLe) + [event];
    SortSorted(rows + [event], EventLe);
    SortSorted(rows, EventLe);
    forall i | 0 <= i < |rows| ensures Sort(rows, EventLe)[i].availableTs < event.availableTs {
      assert Sort(rows, EventLe)[i] in multiset(Sort(rows, EventLe));
      assert Sort(rows, EventLe)[i] in multiset(rows);
    }
    SortAppendLast(rows, event);
  }

  lemma {:induction false} SortAppendLast(rows: seq<Event>, event: Event)
    requires forall i :: 0 <= i < |rows| ==> rows[i].availableTs < event.availableTs
    ensures Sort(rows + [event], EventLe) == Sort(rows, EventLe) + [event]
  {
    if rows != [] {
      assert (rows + [event])[1..] == rows[1..] + [event];
      SortAppendLast(rows[1..], event);
      InsertBeforeLast(rows[0], Sort(rows[1..], EventLe), event);
    }
  }

  lemma {:induction false} InsertBeforeLast(x: Event, sorted: seq<Event>, event: Event)
    requires x.availableTs < event.availableTs
    ensures Insert(x, sorted + [event], EventLe) == Insert(x, sorted, EventLe) + [event]
  {
    if sorted != [] {
      ConsAppend(sorted, [event]);
      if EventLe(x, sorted[0]) {
        AppendAssociative([x], sorted, [event]);
      } else {
        InsertBeforeLast(x, sorted[1..], event);
        AppendAssociative([sorted[0]], Insert(x, sorted[1..], EventLe), [event]);
      }
    }
  }

  lemma SortedLast(rows: seq<Event>)
    requires rows != []
    ensures Sort(rows, EventLe)[|rows| - 1] in rows
    ensures forall i :: 0 <= i < |rows| ==> rows[i].availableTs <= Sort(rows, EventLe)[|rows| - 1].availableTs
  {
    EventOrder();
    SortGreatest(rows, EventLe);
    forall i | 0 <= i < |rows| ensures rows[i].availableTs <= Sort(rows, EventLe)[|rows| - 1].availableTs {
      assert rows[i] in rows;
    }
  }

  /** The state of a scope whose events were all taken in order. */
  function InOrder(cfg: Config, rows: seq<Event>): ScopeState {
    TakenAll(cfg, EMPTY, Sort(rows, EventLe))
  }

  lemma LateMeansOlder(cfg: Config, rows: seq<Event>, event: Event)
    ensures Late(InOrder(cfg, rows), event) <==>
              exists i :: 0 <= i < |rows| && event.availableTs < rows[i].availableTs
  {
    var sorted := Sort(rows, EventLe);
    if rows != [] {
      SortedLast(rows);
      var i :| 0 <= i < |rows| && rows[i] == sorted[|rows| - 1];
      assert InOrder(cfg, rows).watermark == Some(rows[i].availableTs);
    }
  }

  lemma TakenNext(cfg: Config, events: seq<Event>, event: Event)
    ensures TakenAll(cfg, EMPTY, events + [event]) == Taken(cfg, TakenAll(cfg, EMPTY, events), event)
  {
    var all := events + [event];
    assert all[..|all| - 1] == events;
  }

  lemma NewIsNewest(rows: seq<Event>, event: Event)
    requires AllOf(rows, event.scope) && DistinctTimes(rows + [event]) && event !in rows
    requires forall i :: 0 <= i < |rows| ==> rows[i].availableTs <= event.availableTs
    ensures forall i :: 0 <= i < |rows| ==> rows[i].availableTs < event.availableTs
  {
    forall i | 0 <= i < |rows| ensures rows[i].availableTs < event.availableTs {
      assert rows[i] in rows;
      var all := rows + [event];
      assert all[i] == rows[i] && all[|rows|] == event;
    }
  }

  /** One arrival, new or repeated, keeps a scope at the in-order state of what it has seen. */
  lemma ArrivalConverges(cfg: Config, rows: seq<Event>, event: Event)
    requires AllOf(rows, event.scope)
    requires DistinctTimes(rows + [event])
    requires event in rows ==> Late(InOrder(cfg, rows), event)
    ensures var logged := Some(Sort(Journaled(rows, event), EventLe));
            Updated(cfg, Recompute, InOrder(cfg, rows), logged, event) == InOrder(cfg, Journaled(rows, event))
  {
    var s := InOrder(cfg, rows);
    var after := Journaled(rows, event);
    LateMeansOlder(cfg, rows, event);
    if Late(s, event) {
      SortedTwice(after);
      RebuiltIsTaken(cfg, Sort(after, EventLe));
    } else {
      NewIsNewest(rows, event);
      SortAppendNewest(rows, event);
      TakenNext(cfg, Sort(rows, EventLe), event);
    }
  }

  lemma RebuiltAnswers(cfg: Config, rows: seq<Event>)
    requires rows != []
    ensures RebuiltVector(cfg, Sort(rows, EventLe)) == Some(NewestVector(cfg, Sort(rows, EventLe)))
  {
    SortedTwice(rows);
    var sorted := Sort(rows, EventLe);
    ReplayedIsTaken(cfg, sorted[..|sorted| - 1], LastN(sorted, LogCap(cfg)));
    SameEmitted(cfg, TakenAll(cfg, EMPTY, sorted[..|sorted| - 1]), LastN(sorted, LogCap(cfg)), sorted[|sorted| - 1]);
  }

  lemma SameEmitted(cfg: Config, s: ScopeState, log: seq<Event>, event: Event)
    ensures Emitted(cfg, s.(recent := log), event) == Emitted(cfg, s, event)
  {
  }

  /** One arrival, new or repeated, is answered with the newest vector of the in-order replay. */
  lemma ArrivalAnswers(cfg: Config, rows: seq<Event>, event: Event)
    requires AllOf(rows, event.scope)
    requires DistinctTimes(rows + [event])
    requires event in rows ==> Late(InOrder(cfg, rows), event)
    ensures Journaled(rows, event) != []
    ensures var logged := Some(Sort(Journaled(rows, event), EventLe));
            Output(cfg, Recompute, InOrder(cfg, rows), logged, event)
              == Some(NewestVector(cfg, Sort(Journaled(rows, event), EventLe)))
  {
    LateMeansOlder(cfg, rows, event);
    var s, logged := InOrder(cfg, rows), Some(Sort(Journaled(rows, event), EventLe));
    if Late(s, event) {
      RebuiltAnswers(cfg, Journaled(rows, event));
      assert Output(cfg, Recompute, s, logged, event) == RebuiltVector(cfg, logged.value);
    } else {
      NewIsNewest(rows, event);
      NewestAnswers(cfg, rows, event);
      assert Output(cfg, Recompute, s, logged, event) == Some(Emitted(cfg, Recorded(cfg, s, event), event));
    }
  }

  lemma NewestAnswers(cfg: Config, rows: seq<Event>, event: Event)
    requires forall i :: 0 <= i < |rows| ==> rows[i].availableTs < event.availableTs
    ensures var s := InOrder(cfg, rows);
            Emitted(cfg, Recorded(cfg, s, event), event) == NewestVector(cfg, Sort(rows + [event], EventLe))
  {
    var s, sorted := InOrder(cfg, rows), Sort(rows, EventLe);
    SortAppendNewest(rows, event);
    assert (sorted + [event])[..|sorted|] == sorted;
    SameEmitted(cfg, s, Recorded(cfg, s, event).recent, event);
  }

  /** Delivering a journaled event again changes nothing exactly when it is older than the watermark. */
  lemma RedeliveryHarmless(cfg: Config, rows: seq<Event>, event: Event)
    requires DistinctTimes(rows) && AllOf(rows, event.scope) && NoRepeats(rows) && event in rows
    ensures var s := InOrder(cfg, rows);
            Updated(cfg, Recompute, s, Some(Sort(rows, EventLe)), event) == s <==> Late(s, event)
  {
    if Late(InOrder(cfg, rows), event) {
      SortedTwice(rows);
      RebuiltIsTaken(cfg, Sort(rows, EventLe));
    } else {
      NewestAgain(cfg, rows, event);
    }
  }

  lemma NewestAgain(cfg: Config, rows: seq<Event>, event: Event)
    requires DistinctTimes(rows) && AllOf(rows, event.scope) && NoRepeats(rows) && event in rows
    requires !Late(InOrder(cfg, rows), event)
    ensures Taken(cfg, InOrder(cfg, rows), event).recent != InOrder(cfg, rows).recent
  {
    var sorted := Sort(rows, EventLe);
    NewestIsLast(cfg, rows, event);
    TakenAllRecent(cfg, sorted);
    LastNAppend(sorted, [event], LogCap(cfg));
    RepeatCount(rows, event);
    LogChanges(sorted, event, LogCap(cfg));
  }

  lemma NewestIsLast(cfg: Config, rows: seq<Event>, event: Event)
    requires DistinctTimes(rows) && AllOf(rows, event.scope) && event in rows
    requires !Late(InOrder(cfg, rows), event)
    ensures Sort(rows, EventLe)[|rows| - 1] == event
  {
    LateMeansOlder(cfg, rows, event);
    SortedLast(rows);
    var i :| 0 <= i < |rows| && rows[i] == event;
    var j :| 0 <= j < |rows| && rows[j] == Sort(rows, EventLe)[|rows| - 1];
  }

  /** Logging the newest event a second time shows. */
  lemma LogChanges(sorted: seq<Event>, event: Event, cap: nat)
    requires 2 <= cap && sorted != [] && sorted[|sorted| - 1] == event && multiset(sorted)[event] <= 1
    ensures LastN(sorted, cap) != LastN(sorted + [event], cap)
  {
    var n := |sorted|;
    if cap <= n {
      var before := sorted[n - 2];
      assert sorted == sorted[..n - 2] + [before, event];
      assert before != event;
      assert LastN(sorted, cap)[cap - 2] == before;
      assert LastN(sorted + [event], cap)[cap - 2] == event;
    }
  }

  lemma {:induction false} RepeatCount(rows: seq<Event>, event: Event)
    requires NoRepeats(rows)
    ensures multiset(rows)[event] <= 1
  {
    if rows != [] {
      assert rows == [rows[0]] + rows[1..];
      RepeatCount(rows[1..], event);
      if rows[0] == event {
        assert event !in rows[1..];
        assert event !in multiset(rows[1..]);
      }
    }
  }

  /** What the journal holds after a run that began with an empty one. */
  function Seen(events: seq<Event>): seq<Event> {
    if events == [] then [] else Journaled(Seen(events[..|events| - 1]), events[|events| - 1])
  }

  lemma {:induction false} SeenMembers(events: seq<Event>)
    ensures NoRepeats(Seen(events))
    ensures forall e :: e in Seen(events) <==> e in events
  {
    if events != [] {
      var front, last := events[..|events| - 1], events[|events| - 1];
      FrontLast(events);
      SeenMembers(front);
    }
  }

  ghost predicate Admissible(events: seq<Event>) {
    DistinctTimes(events) && RepeatsAreOld(events)
  }

  lemma AdmissibleFront(events: seq<Event>)
    requires Admissible(events) && events != []
    ensures Admissible(events[..|events| - 1])
  {
    var front := events[..|events| - 1];
    forall n | 0 <= n < |front| && front[n] in front[..n] ensures Overtaken(front[..n], front[n]) {
      assert front[..n] == events[..n] && front[n] == events[n];
    }
  }

  /** An engine as it is created: nothing stored, an empty journal. */
  function Fresh(cfg: Config): Engine {
    Engine(Tables(cfg.window, map[], map[], map[], map[], map[], map[]), Some([]))
  }

  lemma FreshSound(cfg: Config)
    ensures Sound(cfg, Fresh(cfg))
    ensures forall scope :: ViewOf(Fresh(cfg).tables, scope) == EMPTY
  {
    forall scope ensures ViewOf(Fresh(cfg).tables, scope) == EMPTY {
      var v := ViewOf(Fresh(cfg).tables, scope);
      assert v.ema == map[] && v.history == map[];
    }
    forall scope ensures InBounds(Fresh(cfg).tables, scope) {
      assert ViewOf(Fresh(cfg).tables, scope) == EMPTY;
    }
  }

  /** Whatever the order of arrival, every scope holds the in-order state of the events seen. */
  lemma {:induction false} ArrivalsConverge(cfg: Config, events: seq<Event>)
    requires Admissible(events)
    ensures Run(cfg, Recompute, Fresh(cfg), events).journal == Some(Seen(events))
    ensures forall scope ::
      ViewOf(Run(cfg, Recompute, Fresh(cfg), events).tables, scope) == InOrder(cfg, Only(scope, Seen(events)))
  {
    FreshSound(cfg);
    if events != [] {
      var front, last := events[..|events| - 1], events[|events| - 1];
      AdmissibleFront(events);
      ArrivalsConverge(cfg, front);
      RunSound(cfg, Recompute, Fresh(cfg), front);
      var e := Run(cfg, Recompute, Fresh(cfg), front);
      forall scope
        ensures ViewOf(Step(cfg, Recompute, e, last).tables, scope) == InOrder(cfg, Only(scope, Seen(events)))
      {
        StepView(cfg, Recompute, e, last, scope);
        JournaledOnly(Seen(front), last, scope);
        if scope == last.scope {
          ScopeArrival(cfg, events);
        }
      }
    }
  }

  lemma ScopeArrival(cfg: Config, events: seq<Event>)
    requires Admissible(events) && events != []
    ensures var front, last := events[..|events| - 1], events[|events| - 1];
            var rows := Only(last.scope, Seen(front));
            var logged := Some(Sort(Journaled(rows, last), EventLe));
            && Updated(cfg, Recompute, InOrder(cfg, rows), logged, last) == InOrder(cfg, Journaled(rows, last))
            && Journaled(rows, last) != []
            && Output(cfg, Recompute, InOrder(cfg, rows), logged, last)
                 == Some(NewestVector(cfg, Sort(Journaled(rows, last), EventLe)))
  {
    var n := |events| - 1;
    var front, last := events[..n], events[n];
    var rows := Only(last.scope, Seen(front));
    OnlyAllOf(last.scope, Seen(front));
    RowsAreArrivals(front, last);
    assert DistinctTimes(rows + [last]) by {
      var all := rows + [last];
      forall i | 0 <= i < |all| ensures all[i] in events {
      }
      DistinctMembers(events, all);
    }
    if last in rows {
      var m :| 0 <= m < |front| && front[m].scope == last.scope && last.availableTs < front[m].availableTs;
      assert front[m] in rows;
      LateMeansOlder(cfg, rows, last);
    }
    ArrivalConverges(cfg, rows, last);
    ArrivalAnswers(cfg, rows, last);
  }

  /** So every update, late, repeated or not, answers the newest vector of one in-order replay of the events seen. */
  lemma AnswersConverge(cfg: Config, events: seq<Event>)
    requires Admissible(events) && events != []
    ensures var front, last := events[..|events| - 1], events[|events| - 1];
            var rows := Only(last.scope, Seen(events));
            && rows != []
            && StepOutput(cfg, Recompute, Run(cfg, Recompute, Fresh(cfg), front), last)
                 == Some(NewestVector(cfg, Sort(rows, EventLe)))
  {
    var front, last := events[..|events| - 1], events[|events| - 1];
    AdmissibleFront(events);
    ArrivalsConverge(cfg, front);
    JournaledOnly(Seen(front), last, last.scope);
    ScopeArrival(cfg, events);
  }

  lemma RowsAreArrivals(front: seq<Event>, last: Event)
    ensures forall e :: e in Only(last.scope, Seen(front)) <==> e in front && e.scope == last.scope
  {
    SeenMembers(front);
    forall e ensures e in Only(last.scope, Seen(front)) <==> e in front && e.scope == last.scope {
      FilterMembers(Seen(front), (x: Event) => x.scope == last.scope, e);
    }
  }

  ghost predicate Among(some: seq<Event>, events: seq<Event>) {
    forall i :: 0 <= i < |some| ==> some[i] in events
  }

  lemma DistinctMembers(events: seq<Event>, some: seq<Event>)
    requires DistinctTimes(events) && Among(some, events)
    ensures DistinctTimes(some)
  {
  }

  lemma SameMembersSameCounts(a: seq<Event>, b: seq<Event>)
    requires NoRepeats(a) && NoRepeats(b) && forall e :: e in a <==> e in b
    ensures multiset(a) == multiset(b)
  {
    forall e ensures multiset(a)[e] == multiset(b)[e] {
      RepeatCount(a, e);
      RepeatCount(b, e);
      assert e in multiset(a) <==> e in a;
      assert e in multiset(b) <==> e in b;
    }
  }

  lemma {:induction false} OnlyNoRepeats(scope: Scope, rows: seq<Event>)
    requires NoRepeats(rows)
    ensures NoRepeats(Only(scope, rows))
  {
    if rows != [] {
      OnlyNoRepeats(scope, rows[1..]);
      FilterMembers(rows[1..], (e: Event) => e.scope == scope, rows[0]);
      assert rows[0] !in rows[1..];
      assert Only(scope, rows) == (if rows[0].scope == scope then [rows[0]] else []) + Only(scope, rows[1..]);
    }
  }

  /**
    * Two ways of delivering the same events, late, repeated or in order, leave every scope in the
    * same state; the sorted delivery is one of them.
    */
  lemma DeliveryOrderIrrelevant(cfg: Config, a: seq<Event>, b: seq<Event>, scope: Scope)
    requires Admissible(a) && Admissible(b)
    requires forall e :: e in a <==> e in b
    ensures ViewOf(Run(cfg, Recompute, Fresh(cfg), a).tables, scope)
         == ViewOf(Run(cfg, Recompute, Fresh(cfg), b).tables, scope)
  {
    ArrivalsConverge(cfg, a);
    ArrivalsConverge(cfg, b);
    SeenMembers(a);
    SeenMembers(b);
    var ra, rb := Only(scope, Seen(a)), Only(scope, Seen(b));
    OnlyNoRepeats(scope, Seen(a));
    OnlyNoRepeats(scope, Seen(b));
    forall e ensures e in ra <==> e in rb {
      FilterMembers(Seen(a), (x: Event) => x.scope == scope, e);
      FilterMembers(Seen(b), (x: Event) => x.scope == scope, e);
    }
    SameMembersSameCounts(ra, rb);
    OnlyAllOf(scope, Seen(a));
    forall i | 0 <= i < |ra| ensures ra[i] in a {
      FilterMembers(Seen(a), (x: Event) => x.scope == scope, ra[i]);
    }
    DistinctMembers(a, ra);
    EventOrder();
    SortPermutation(ra, rb, EventLe);
  }

  /** Events in order are never replayed: under any policy each is simply taken. */
  lemma {:induction false} InOrderRun(cfg: Config, policy: Policy, e: Engine, events: seq<Event>, scope: Scope)
    requires Sound(cfg, e) && AllOf(events, scope) && SortedBy(events, EventLe)
    requires ViewOf(e.tables, scope) == EMPTY
    ensures ViewOf(Run(cfg, policy, e, events).tables, scope) == TakenAll(cfg, EMPTY, events)
  {
    if events != [] {
      var front, last := events[..|events| - 1], events[|events| - 1];
      InOrderRun(cfg, policy, e, front, scope);
      RunSound(cfg, policy, e, front);
      StepView(cfg, policy, Run(cfg, policy, e, front), last, scope);
      InOrderNext(cfg, events);
    }
  }

  lemma InOrderNext(cfg: Config, events: seq<Event>)
    requires SortedBy(events, EventLe) && events != []
    ensures !Late(TakenAll(cfg, EMPTY, events[..|events| - 1]), events[|events| - 1])
  {
    var n := |events| - 1;
    if n > 0 {
      assert EventLe(events[n - 1], events[n]);
      assert TakenAll(cfg, EMPTY, events[..n]).watermark == Some(events[..n][n - 1].availableTs);
    }
  }
}
