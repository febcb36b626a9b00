/** Point-in-time joins of auxiliary records (`asof_join.py`, `materialization.py`). */
module AsofJoin {
  import opened Sequences
  import opened Sorting
  import opened FeatureModel

  /** Auxiliary records under an alias, joined to the events that agree with them on the declared keys. */
  datatype Auxiliary = Auxiliary(alias: string, keys: seq<string>, records: seq<Event>)

  /** An event with the latest availability time of anything it was computed from. */
  datatype Prepared = Prepared(event: Event, cutoff: int)

  /** The order of the auxiliary records: available time, event time, symbol. */
  predicate RecordLe(a: Event, b: Event) {
    if a.availableTs == b.availableTs && a.eventTs == b.eventTs then StringLe(a.symbol, b.symbol) else EventLe(a, b)
  }

  lemma RecordOrder()
    ensures TotalPreorder(RecordLe)
  {
    forall a, b ensures RecordLe(a, b) || RecordLe(b, a) {
      StringLeTotal(a.symbol, b.symbol);
    }
    forall a, b, c | RecordLe(a, b) && RecordLe(b, c) ensures RecordLe(a, c) {
      if a.availableTs == b.availableTs == c.availableTs && a.eventTs == b.eventTs == c.eventTs {
        StringLeTransitive(a.symbol, b.symbol, c.symbol);
      }
    }
  }

  function EntityKey(event: Event, key: string): Option<string> {
    if key == "symbol" then Some(event.symbol)
    else if key in event.entities then Some(event.entities[key])
    else None
  }

  /** The symbol always counts, declared or not. */
  predicate KeyMatches(aux: Auxiliary, event: Event, record: Event) {
    event.symbol == record.symbol && forall key :: key in aux.keys ==> EntityKey(event, key) == EntityKey(record, key)
  }

  function Matching(aux: Auxiliary, event: Event): Event -> bool {
    (r: Event) => KeyMatches(aux, event, r)
  }

  /** What an event may be joined to: a matching record available by the event's own availability. */
  function Timely(aux: Auxiliary, event: Event): Event -> bool {
    (r: Event) => KeyMatches(aux, event, r) && r.availableTs <= event.availableTs
  }

  predicate InOrderOfTime(records: seq<Event>) {
    forall i, j :: 0 <= i < j < |records| ==> records[i].availableTs <= records[j].availableTs
  }

  /** The records an event may be joined to, oldest first. */
  function Candidates(aux: Auxiliary, event: Event): seq<Event> {
    Filter(Sort(aux.records, RecordLe), Timely(aux, event))
  }

  /** The record an event is joined to. */
  function Joined(aux: Auxiliary, event: Event): Option<Event> {
    Last(Candidates(aux, event))
  }

  lemma {:induction false} FilterPrefix(s: seq<Event>, q: Event -> bool, index: nat)
    requires index <= |s|
    requires forall i :: 0 <= i < index ==> q(s[i])
    requires forall i :: index <= i < |s| ==> !q(s[i])
    ensures Filter(s, q) == s[..index]
  {
    if s != [] {
      if index == 0 {
        FilterNone(s, q);
      } else {
        FilterPrefix(s[1..], q, index - 1);
        assert s[..index] == [s[0]] + s[1..][..index - 1];
      }
    }
  }

  lemma {:induction false} FilterKeepsOrder(s: seq<Event>, p: Event -> bool)
    requires InOrderOfTime(s)
    ensures InOrderOfTime(Filter(s, p))
  {
    if s != [] {
      FilterKeepsOrder(s[1..], p);
      var rest := Filter(s[1..], p);
      forall j | 0 <= j < |rest| ensures s[0].availableTs <= rest[j].availableTs {
        FilterMembers(s[1..], p, rest[j]);
      }
    }
  }

  lemma RecordsInOrder(records: seq<Event>)
    ensures InOrderOfTime(Sort(records, RecordLe))
  {
    RecordOrder();
    SortSorted(records, RecordLe);
    var sorted := Sort(records, RecordLe);
    forall i, j | 0 <= i < j < |sorted| ensures sorted[i].availableTs <= sorted[j].availableTs {
      assert RecordLe(sorted[i], sorted[j]);
    }
  }

  /** The matching records up to a bisection point are the candidates. */
  lemma BisectedCandidates(aux: Auxiliary, event: Event, keys: seq<int>, index: nat)
    requires var matches := Filter(Sort(aux.records, RecordLe), Matching(aux, event));
             |keys| == |matches| && forall i :: 0 <= i < |keys| ==> keys[i] == matches[i].availableTs
    requires index <= |keys|
    requires forall i :: 0 <= i < index ==> keys[i] <= event.availableTs
    requires forall i :: index <= i < |keys| ==> event.availableTs < keys[i]
    ensures Candidates(aux, event) == Filter(Sort(aux.records, RecordLe), Matching(aux, event))[..index]
  {
    var sorted := Sort(aux.records, RecordLe);
    var byThen := (r: Event) => r.availableTs <= event.availableTs;
    FilterPrefix(Filter(sorted, Matching(aux, event)), byThen, index);
    FilterTwice(sorted, Matching(aux, event), byThen, Timely(aux, event));
  }

  function KeysOf(records: seq<Event>): (r: seq<int>)
    ensures |r| == |records|
  {
    seq(|records|, i requires 0 <= i < |records| => records[i].availableTs)
  }

  lemma MatchesInOrder(aux: Auxiliary, event: Event)
    ensures Ascending(KeysOf(Filter(Sort(aux.records, RecordLe), Matching(aux, event))))
  {
    RecordsInOrder(aux.records);
    FilterKeepsOrder(Sort(aux.records, RecordLe), Matching(aux, event));
  }

  /** `asof_pick` on the sorted records that match the event. */
  method AsofPick(aux: Auxiliary, sorted: seq<Event>, event: Event) returns (picked: Option<Event>)
    requires sorted == Sort(aux.records, RecordLe)
    ensures picked == Joined(aux, event)
  {
    var matches := Filter(sorted, Matching(aux, event));
    MatchesInOrder(aux, event);
    var keys := KeysOf(matches);
    var index := BisectRight(keys, event.availableTs);
    BisectedCandidates(aux, event, keys, index);
    picked := if index == 0 then None else Some(matches[index - 1]);
  }

  function JoinedEvent(aux: Auxiliary, p: Prepared): Prepared {
    match Joined(aux, p.event)
    case None => p
    case Some(r) =>
      Prepared(p.event.(joins := p.event.joins[(aux.alias, "price") := r.price]),
               if p.cutoff < r.availableTs then r.availableTs else p.cutoff)
  }

  function JoinAll(auxes: seq<Auxiliary>, p: Prepared): Prepared {
    if auxes == [] then p else JoinAll(auxes[1..], JoinedEvent(auxes[0], p))
  }

  function PreparedAll(auxes: seq<Auxiliary>, events: seq<Event>): (r: seq<Prepared>)
    ensures |r| == |events|
  {
    seq(|events|, i requires 0 <= i < |events| => JoinAll(auxes, Prepared(events[i], events[i].availableTs)))
  }

  /** One event with the record it is joined to, if any. */
  method JoinOne(aux: Auxiliary, sorted: seq<Event>, p: Prepared) returns (joined: Prepared)
    requires sorted == Sort(aux.records, RecordLe)
    ensures joined == JoinedEvent(aux, p)
  {
    var matched := AsofPick(aux, sorted, p.event);
    if matched.None? {
      return p;
    }
    var r := matched.value;
    var joins := p.event.joins[(aux.alias, "price") := r.price];
    var cutoff := if p.cutoff < r.availableTs then r.availableTs else p.cutoff;
    joined := Prepared(p.event.(joins := joins), cutoff);
  }

  ghost predicate AllJoined(aux: Auxiliary, prepared: seq<Prepared>, next: seq<Prepared>) {
    |next| <= |prepared| && forall k :: 0 <= k < |next| ==> next[k] == JoinedEvent(aux, prepared[k])
  }

  lemma JoinedNext(aux: Auxiliary, prepared: seq<Prepared>, next: seq<Prepared>, joined: Prepared)
    requires AllJoined(aux, prepared, next) && |next| < |prepared| && joined == JoinedEvent(aux, prepared[|next|])
    ensures AllJoined(aux, prepared, next + [joined])
  {
  }

  /** The joins of one alias over all events. */
  method JoinAuxiliary(aux: Auxiliary, prepared: seq<Prepared>) returns (next: seq<Prepared>)
    ensures |next| == |prepared| && AllJoined(aux, prepared, next)
  {
    var sorted := Sort(aux.records, RecordLe);
    next := [];
    for i := 0 to |prepared|
      invariant |next| == i && AllJoined(aux, prepared, next)
    {
      var joined := JoinOne(aux, sorted, prepared[i]);
      JoinedNext(aux, prepared, next, joined);
      next := next + [joined];
    }
  }

  /** `_prepare_events`: the joins of each alias in turn, over all events. */
  method PrepareEvents(events: seq<Event>, auxes: seq<Auxiliary>) returns (prepared: seq<Prepared>)
    ensures prepared == PreparedAll(auxes, events)
    ensures DistinctAliases(auxes) ==> forall i :: 0 <= i < |events| ==> PreparedFrom(auxes, events[i], prepared[i])
  {
    forall i | 0 <= i < |events| && DistinctAliases(auxes)
      ensures PreparedFrom(auxes, events[i], PreparedAll(auxes, events)[i])
    {
      PreparedIs(auxes, Prepared(events[i], events[i].availableTs));
    }
    prepared := seq(|events|, i requires 0 <= i < |events| => Prepared(events[i], events[i].availableTs));
    for a := 0 to |auxes|
      invariant |prepared| == |events|
      invariant forall i :: 0 <= i < |events| ==> JoinAll(auxes[a..], prepared[i]) == PreparedAll(auxes, events)[i]
    {
      ghost var before := prepared;
      prepared := JoinAuxiliary(auxes[a], prepared);
      forall i | 0 <= i < |events| ensures JoinAll(auxes[a + 1..], prepared[i]) == PreparedAll(auxes, events)[i] {
        JoinAllNext(auxes, a, before[i]);
      }
    }
  }

  lemma JoinAllNext(auxes: seq<Auxiliary>, a: nat, p: Prepared)
    requires a < |auxes|
    ensures JoinAll(auxes[a..], p) == JoinAll(auxes[a + 1..], JoinedEvent(auxes[a], p))
  {
    assert auxes[a..][0] == auxes[a] && auxes[a..][1..] == auxes[a + 1..];
  }

  /** The joined record is the newest matching one available in time; nothing is joined if there is none. */
  lemma JoinedIsNewest(aux: Auxiliary, event: Event)
    ensures match Joined(aux, event)
      case None =>
        forall r :: r in aux.records && KeyMatches(aux, event, r) ==> event.availableTs < r.availableTs
      case Some(best) =>
        && best in aux.records && KeyMatches(aux, event, best) && best.availableTs <= event.availableTs
        && forall r :: r in aux.records && KeyMatches(aux, event, r) && r.availableTs <= event.availableTs
             ==> RecordLe(r, best)
  {
    var all, timely := Candidates(aux, event), Timely(aux, event);
    var kept := Filter(aux.records, timely);
    RecordSortFilter(aux.records, timely);
    FilterKeeps(aux.records, timely);
    if all == [] {
      forall r | r in aux.records && KeyMatches(aux, event, r) ensures event.availableTs < r.availableTs {
        assert r !in kept;
      }
    } else {
      NewestOf(kept);
    }
  }

  lemma NewestOf(records: seq<Event>)
    requires records != []
    ensures Sort(records, RecordLe)[|records| - 1] in records
    ensures forall r :: r in records ==> RecordLe(r, Sort(records, RecordLe)[|records| - 1])
  {
    RecordOrder();
    SortGreatest(records, RecordLe);
  }

  /** However many joins are made, nothing later than the event itself is looked at. */
  lemma {:induction false} JoinsNeverLookAhead(auxes: seq<Auxiliary>, p: Prepared)
    requires p.cutoff == p.event.availableTs
    ensures JoinAll(auxes, p).cutoff == p.event.availableTs
    ensures JoinAll(auxes, p).event == p.event.(joins := JoinAll(auxes, p).event.joins)
  {
    if auxes != [] {
      JoinedIsNewest(auxes[0], p.event);
      JoinsNeverLookAhead(auxes[1..], JoinedEvent(auxes[0], p));
    }
  }

  function KnownBy(event: Event): Event -> bool {
    (r: Event) => r.availableTs <= event.availableTs
  }

  /**
    * The two have the same records once `event` is available, up to the order in which they are
    * listed. What becomes available later may differ, wherever it is listed.
    */
  ghost predicate SameKnown(more: Auxiliary, aux: Auxiliary, event: Event) {
    && more.alias == aux.alias && more.keys == aux.keys
    && Sort(Filter(more.records, KnownBy(event)), RecordLe) == Sort(Filter(aux.records, KnownBy(event)), RecordLe)
  }

  lemma RecordSortFilter(records: seq<Event>, p: Event -> bool)
    ensures Filter(Sort(records, RecordLe), p) == Sort(Filter(records, p), RecordLe)
  {
    RecordOrder();
    SortFilter(records, RecordLe, p);
  }

  /** Records available only after an event may be listed anywhere among the others. */
  lemma LaterRecordInserted(aux: Auxiliary, event: Event, at: nat, later: Event)
    requires at <= |aux.records| && event.availableTs < later.availableTs
    ensures SameKnown(aux.(records := aux.records[..at] + [later] + aux.records[at..]), aux, event)
  {
    assert aux.records == aux.records[..at] + aux.records[at..];
    FilterInserted(aux.records[..at], later, aux.records[at..], KnownBy(event));
  }

  /** The order in which records are listed matters to ties alone. */
  lemma RecordsReordered(more: Auxiliary, aux: Auxiliary, event: Event)
    requires more.alias == aux.alias && more.keys == aux.keys
    requires multiset(more.records) == multiset(aux.records) && TieFree(aux.records, RecordLe)
    ensures SameKnown(more, aux, event)
  {
    RecordOrder();
    RecordSortFilter(more.records, KnownBy(event));
    RecordSortFilter(aux.records, KnownBy(event));
    SortPermutation(aux.records, more.records, RecordLe);
  }

  lemma CandidatesOfKnown(aux: Auxiliary, event: Event)
    ensures Candidates(aux, event) == Filter(Sort(Filter(aux.records, KnownBy(event)), RecordLe), Matching(aux, event))
  {
    RecordSortFilter(aux.records, KnownBy(event));
    FilterTwice(Sort(aux.records, RecordLe), KnownBy(event), Matching(aux, event), Timely(aux, event));
  }

  lemma FutureRecordsIgnored(more: Auxiliary, aux: Auxiliary, event: Event)
    requires SameKnown(more, aux, event)
    ensures Joined(more, event) == Joined(aux, event)
  {
    CandidatesOfKnown(more, event);
    CandidatesOfKnown(aux, event);
    FilterSameBy(Sort(Filter(aux.records, KnownBy(event)), RecordLe), Matching(more, event), Matching(aux, event));
  }

  /** An event is prepared alike from any records that were the same once it was available. */
  lemma {:induction false} LaterRecordsChangeNothing(more: seq<Auxiliary>, auxes: seq<Auxiliary>, p: Prepared)
    requires |more| == |auxes| && forall i :: 0 <= i < |auxes| ==> SameKnown(more[i], auxes[i], p.event)
    ensures JoinAll(more, p) == JoinAll(auxes, p)
  {
    if auxes != [] {
      FutureRecordsIgnored(more[0], auxes[0], p.event);
      LaterRecordsChangeNothing(more[1..], auxes[1..], JoinedEvent(auxes[0], p));
    }
  }

  // ---- what a join writes ----

  ghost predicate DistinctAliases(auxes: seq<Auxiliary>) {
    forall a, b :: 0 <= a < b < |auxes| ==> auxes[a].alias != auxes[b].alias
  }

  /** Of the same symbol and declared entity keys, and available by the event's own availability. */
  predicate Fits(aux: Auxiliary, event: Event, r: Event) {
    && r.symbol == event.symbol && r.availableTs <= event.availableTs
    && forall key :: key in aux.keys && key != "symbol" ==>
         && (key in r.entities <==> key in event.entities)
         && (key in r.entities ==> r.entities[key] == event.entities[key])
  }

  predicate NewestFit(aux: Auxiliary, event: Event, r: Event) {
    && r in aux.records && Fits(aux, event, r)
    && forall o :: o in aux.records && Fits(aux, event, o) ==>
         o.availableTs < r.availableTs || (o.availableTs == r.availableTs && o.eventTs <= r.eventTs)
  }

  predicate SameAt(a: map<(string, string), real>, b: map<(string, string), real>, key: (string, string)) {
    (key in a <==> key in b) && (key in a ==> a[key] == b[key])
  }

  /** What `joins` holds for an alias: the price of a newest fitting record, or what was there before. */
  ghost predicate JoinWritten(aux: Auxiliary, event: Event, joins: map<(string, string), real>) {
    var key := (aux.alias, "price");
    if forall r :: r in aux.records ==> !Fits(aux, event, r) then SameAt(joins, event.joins, key)
    else exists r :: NewestFit(aux, event, r) && key in joins && joins[key] == r.price
  }

  ghost predicate NoAlias(auxes: seq<Auxiliary>, key: (string, string)) {
    forall a :: 0 <= a < |auxes| ==> key != (auxes[a].alias, "price")
  }

  /** An event after its joins: only the prices under the aliases are written. */
  ghost predicate PreparedFrom(auxes: seq<Auxiliary>, event: Event, p: Prepared) {
    && p.cutoff == event.availableTs && p.event == event.(joins := p.event.joins)
    && (forall a :: 0 <= a < |auxes| ==> JoinWritten(auxes[a], event, p.event.joins))
    && (forall key :: NoAlias(auxes, key) ==> SameAt(p.event.joins, event.joins, key))
  }

  lemma FitsIsTimely(aux: Auxiliary, event: Event, r: Event)
    ensures Fits(aux, event, r) <==> KeyMatches(aux, event, r) && r.availableTs <= event.availableTs
  {
    forall key | key in aux.keys && key != "symbol"
      ensures EntityKey(event, key) == EntityKey(r, key) <==>
        && (key in r.entities <==> key in event.entities)
        && (key in r.entities ==> r.entities[key] == event.entities[key])
    {
    }
  }

  lemma OneJoinWritten(aux: Auxiliary, p: Prepared)
    ensures JoinWritten(aux, p.event, JoinedEvent(aux, p).event.joins)
    ensures forall key :: key != (aux.alias, "price") ==> SameAt(JoinedEvent(aux, p).event.joins, p.event.joins, key)
  {
    JoinedIsNewest(aux, p.event);
    forall r ensures Fits(aux, p.event, r) <==> KeyMatches(aux, p.event, r) && r.availableTs <= p.event.availableTs {
      FitsIsTimely(aux, p.event, r);
    }
    if Joined(aux, p.event).Some? {
      assert NewestFit(aux, p.event, Joined(aux, p.event).value);
    }
  }

  lemma {:induction false} JoinedElsewhere(auxes: seq<Auxiliary>, p: Prepared, key: (string, string))
    requires NoAlias(auxes, key)
    ensures SameAt(JoinAll(auxes, p).event.joins, p.event.joins, key)
  {
    if auxes != [] {
      OneJoinWritten(auxes[0], p);
      JoinedElsewhere(auxes[1..], JoinedEvent(auxes[0], p), key);
    }
  }

  lemma {:induction false} JoinedUnder(auxes: seq<Auxiliary>, p: Prepared, a: nat)
    requires DistinctAliases(auxes) && a < |auxes|
    ensures JoinWritten(auxes[a], p.event, JoinAll(auxes, p).event.joins)
  {
    var next := JoinedEvent(auxes[0], p);
    OneJoinWritten(auxes[0], p);
    if a == 0 {
      assert NoAlias(auxes[1..], (auxes[0].alias, "price"));
      JoinedElsewhere(auxes[1..], next, (auxes[0].alias, "price"));
    } else {
      JoinedUnder(auxes[1..], next, a - 1);
      SameFits(auxes[a], p.event, next.event, JoinAll(auxes, p).event.joins);
    }
  }

  /** Joins under other aliases change nothing of what fits. */
  lemma SameFits(aux: Auxiliary, event: Event, next: Event, joins: map<(string, string), real>)
    requires next == event.(joins := next.joins) && SameAt(next.joins, event.joins, (aux.alias, "price"))
    requires JoinWritten(aux, next, joins)
    ensures JoinWritten(aux, event, joins)
  {
    assert forall r :: Fits(aux, event, r) <==> Fits(aux, next, r);
    if exists r :: r in aux.records && Fits(aux, next, r) {
      var r :| NewestFit(aux, next, r) && joins[(aux.alias, "price")] == r.price;
      assert NewestFit(aux, event, r);
    }
  }

  lemma PreparedIs(auxes: seq<Auxiliary>, p: Prepared)
    requires DistinctAliases(auxes) && p.cutoff == p.event.availableTs
    ensures PreparedFrom(auxes, p.event, JoinAll(auxes, p))
  {
    JoinsNeverLookAhead(auxes, p);
    forall a | 0 <= a < |auxes| ensures JoinWritten(auxes[a], p.event, JoinAll(auxes, p).event.joins) {
      JoinedUnder(auxes, p, a);
    }
    forall key | NoAlias(auxes, key) ensures SameAt(JoinAll(auxes, p).event.joins, p.event.joins, key) {
      JoinedElsewhere(auxes, p, key);
    }
  }
}
