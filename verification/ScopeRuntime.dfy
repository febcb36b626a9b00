/** What the runtime does to one scope, and to all of them, as functions on values. */
module ScopeRuntime {
  import opened Sequences
  import opened Sorting
  import opened FeatureModel
  import opened Nodes
  import opened State

  datatype Policy = Reject | Recompute | Accept

  datatype Config = Config(num: Numerics, setName: string, setVersion: string, window: pos, plan: seq<Node>)

  /** How many recent events a scope remembers. */
  function LogCap(cfg: Config): nat {
    if cfg.window * 4 < 32 then 32 else cfg.window * 4
  }

  function InputsFor(cfg: Config, s: ScopeState, event: Event): Inputs {
    Inputs(cfg.num, event, LastN(s.prices + [event.price], cfg.window), s.previous, s.history)
  }

  function Keyed(scope: Scope, names: set<string>): (r: set<Key<string>>)
    ensures forall k :: k in r <==> k.scope == scope && k.item in names
  {
    var r := set name | name in names :: Key(scope, name);
    assert forall k: Key<string> :: k == Key(k.scope, k.item);
    r
  }

  /** Each emitted value goes to the end of the bounded history of its name. */
  function AppendHistory(history: Histories, scope: Scope, values: map<string, real>): Histories {
    map k | k in history.Keys + Keyed(scope, values.Keys) ::
      if k.scope == scope && k.item in values
      then LastN(HistoryOf(history, scope, k.item) + [values[k.item]], HISTORY_LIMIT)
      else history[k]
  }

  function PassFor(cfg: Config, s: ScopeState, event: Event): Pass {
    RunPlan(InputsFor(cfg, s, event), cfg.plan, Pass(map[], s.ema))
  }

  function VectorFor(cfg: Config, event: Event, values: map<string, real>): Vector {
    Vector(event.scope, event.symbol, event.eventTs, event.availableTs, event.availableTs, values,
           cfg.setName, cfg.setVersion, "")
  }

  /** One event computed on the state it finds, the log of events left alone. */
  function Computed(cfg: Config, s: ScopeState, event: Event): ScopeState {
    var pass := PassFor(cfg, s, event);
    ScopeState(
      LastN(s.prices + [event.price], cfg.window),
      if event.price > 0.0 then Some(event.price) else s.previous,
      pass.ema,
      Some(event.availableTs),
      s.recent,
      AppendHistory(s.history, event.scope, pass.values))
  }

  function Emitted(cfg: Config, s: ScopeState, event: Event): Vector {
    VectorFor(cfg, event, PassFor(cfg, s, event).values)
  }

  function Recorded(cfg: Config, s: ScopeState, event: Event): ScopeState {
    s.(recent := LastN(s.recent + [event], LogCap(cfg)))
  }

  /** An event taken in its turn: logged and computed. */
  function Taken(cfg: Config, s: ScopeState, event: Event): ScopeState {
    Computed(cfg, Recorded(cfg, s, event), event)
  }

  /** Events taken one after the other. */
  function TakenAll(cfg: Config, s: ScopeState, events: seq<Event>): ScopeState {
    if events == [] then s
    else Taken(cfg, TakenAll(cfg, s, events[..|events| - 1]), events[|events| - 1])
  }

  /** The vector of the newest event when events are taken in turn. */
  function NewestVector(cfg: Config, events: seq<Event>): Vector
    requires events != []
  {
    Emitted(cfg, TakenAll(cfg, EMPTY, events[..|events| - 1]), events[|events| - 1])
  }

  /** Events computed one after the other without logging them. */
  function Replayed(cfg: Config, s: ScopeState, events: seq<Event>): ScopeState {
    if events == [] then s
    else Computed(cfg, Replayed(cfg, s, events[..|events| - 1]), events[|events| - 1])
  }

  /** The scope rebuilt from a list of events: sort, reset, log the tail, replay everything. */
  function Rebuilt(cfg: Config, events: seq<Event>): ScopeState {
    var sorted := Sort(events, EventLe);
    Replayed(cfg, EMPTY.(recent := LastN(sorted, LogCap(cfg))), sorted)
  }

  /** The vector of the last event of a rebuild. */
  function RebuiltVector(cfg: Config, events: seq<Event>): Option<Vector> {
    var sorted := Sort(events, EventLe);
    if sorted == [] then None
    else
      var start := EMPTY.(recent := LastN(sorted, LogCap(cfg)));
      Some(Emitted(cfg, Replayed(cfg, start, sorted[..|sorted| - 1]), sorted[|sorted| - 1]))
  }

  predicate Late(s: ScopeState, event: Event) {
    s.watermark.Some? && event.availableTs < s.watermark.value
  }

  /** The events a late arrival is replayed with. */
  function ReplaySource(s: ScopeState, logged: Option<seq<Event>>, event: Event): seq<Event> {
    if logged.Some? then logged.value else s.recent + [event]
  }

  /** `logged` is what the journal holds for the scope once the event is in it, if there is one. */
  function Updated(cfg: Config, policy: Policy, s: ScopeState, logged: Option<seq<Event>>, event: Event): ScopeState {
    if Late(s, event) && policy.Reject? then s
    else if Late(s, event) && policy.Recompute? then Rebuilt(cfg, ReplaySource(s, logged, event))
    else Taken(cfg, s, event)
  }

  function Output(cfg: Config, policy: Policy, s: ScopeState, logged: Option<seq<Event>>,
                  event: Event): Option<Vector> {
    if Late(s, event) && policy.Reject? then None
    else if Late(s, event) && policy.Recompute? then RebuiltVector(cfg, ReplaySource(s, logged, event))
    else Some(Emitted(cfg, Recorded(cfg, s, event), event))
  }

  /** `INSERT OR IGNORE` under a hash of the whole event. */
  function Journaled(rows: seq<Event>, event: Event): seq<Event> {
    if event in rows then rows else rows + [event]
  }

  function LoadScope(rows: seq<Event>, scope: Scope): seq<Event> {
    Sort(Only(scope, rows), EventLe)
  }

  datatype Engine = Engine(tables: Tables, journal: Option<seq<Event>>)

  function JournalAfter(e: Engine, event: Event): Option<seq<Event>> {
    if e.journal.Some? then Some(Journaled(e.journal.value, event)) else None
  }

  function LoggedFor(journal: Option<seq<Event>>, scope: Scope): Option<seq<Event>> {
    if journal.Some? then Some(LoadScope(journal.value, scope)) else None
  }

  function Step(cfg: Config, policy: Policy, e: Engine, event: Event): Engine {
    var s := ViewOf(e.tables, event.scope);
    var journal := JournalAfter(e, event);
    if Late(s, event) && policy.Reject? then Engine(e.tables, journal)
    else
      var s' := Updated(cfg, policy, s, LoggedFor(journal, event.scope), event);
      Engine(PutScope(e.tables, event.scope, s'), journal)
  }

  function StepOutput(cfg: Config, policy: Policy, e: Engine, event: Event): Option<Vector> {
    var s := ViewOf(e.tables, event.scope);
    Output(cfg, policy, s, LoggedFor(JournalAfter(e, event), event.scope), event)
  }

  function Run(cfg: Config, policy: Policy, e: Engine, events: seq<Event>): Engine {
    if events == [] then e
    else Step(cfg, policy, Run(cfg, policy, e, events[..|events| - 1]), events[|events| - 1])
  }

  /** One entry per event: the vector it yielded, if any. */
  function RunOutputs(cfg: Config, policy: Policy, e: Engine, events: seq<Event>): (r: seq<Option<Vector>>)
    ensures |r| == |events|
  {
    if events == [] then []
    else
      var front := events[..|events| - 1];
      RunOutputs(cfg, policy, e, front) + [StepOutput(cfg, policy, Run(cfg, policy, e, front), events[|events| - 1])]
  }

  lemma RunNext(cfg: Config, policy: Policy, e: Engine, events: seq<Event>, i: nat)
    requires i < |events|
    ensures Run(cfg, policy, e, events[..i + 1]) == Step(cfg, policy, Run(cfg, policy, e, events[..i]), events[i])
    ensures RunOutputs(cfg, policy, e, events[..i + 1])
         == RunOutputs(cfg, policy, e, events[..i])
           + [StepOutput(cfg, policy, Run(cfg, policy, e, events[..i]), events[i])]
  {
    TakeNext(events, i);
  }

  /** The watermark of its scope has passed the event. */
  predicate IsLate(t: Tables, event: Event) {
    event.scope in t.watermarks && event.availableTs < t.watermarks[event.scope]
  }

  /** Only policy "reject" leaves an event unanswered, when it is late; the state is then as it was. */
  lemma RejectedIff(cfg: Config, policy: Policy, e: Engine, event: Event)
    ensures StepOutput(cfg, policy, e, event).None? <==> policy.Reject? && IsLate(e.tables, event)
    ensures policy.Reject? && IsLate(e.tables, event) ==> Step(cfg, policy, e, event).tables == e.tables
  {
    var s, journal := ViewOf(e.tables, event.scope), JournalAfter(e, event);
    LateIs(e.tables, event);
    ReplaysSomething(s, journal, event);
    AnsweredUnless(cfg, policy, s, LoggedFor(journal, event.scope), event);
  }

  lemma LateIs(t: Tables, event: Event)
    ensures Late(ViewOf(t, event.scope), event) <==> IsLate(t, event)
  {
  }

  lemma AnsweredUnless(cfg: Config, policy: Policy, s: ScopeState, logged: Option<seq<Event>>, event: Event)
    requires Sort(ReplaySource(s, logged, event), EventLe) != []
    ensures Output(cfg, policy, s, logged, event).None? <==> policy.Reject? && Late(s, event)
  {
  }

  /** Every event is journaled once, answered or not. */
  lemma StepJournals(cfg: Config, policy: Policy, e: Engine, event: Event)
    ensures Step(cfg, policy, e, event).journal
         == match e.journal
            case None => None
            case Some(rows) => Some(if event in rows then rows else rows + [event])
  {
  }

  lemma ReplaysSomething(s: ScopeState, journal: Option<seq<Event>>, event: Event)
    requires journal.Some? ==> event in journal.value
    ensures Sort(ReplaySource(s, LoggedFor(journal, event.scope), event), EventLe) != []
  {
    var source := ReplaySource(s, LoggedFor(journal, event.scope), event);
    if journal.Some? {
      FilterMembers(journal.value, (e: Event) => e.scope == event.scope, event);
      SortMembers(Only(event.scope, journal.value), EventLe);
    }
    assert event in source;
    SortMembers(source, EventLe);
  }

  /** What an event that is in time, or late and accepted, leaves in the dictionaries the nodes do not write. */
  lemma TakenWrites(cfg: Config, policy: Policy, e: Engine, event: Event)
    requires IsLate(e.tables, event) ==> policy.Accept?
    ensures var scope, t, after := event.scope, e.tables, Step(cfg, policy, e, event).tables;
            && after.watermarks == t.watermarks[scope := event.availableTs]
            && after.previous == (if 0.0 < event.price then t.previous[scope := event.price] else t.previous)
            && after.prices == t.prices[scope := LastN(QueueOf(t.prices, scope) + [event.price], cfg.window)]
            && after.recent
               == t.recent[scope := LastN(QueueOf(t.recent, scope) + [event],
                                          if cfg.window * 4 < 32 then 32 else cfg.window * 4)]
  {
    TakenScope(cfg, policy, e, event);
    PutTaken(cfg, e.tables, event);
  }

  /** `defaultdict(deque)`. */
  function QueueOf<T>(queues: map<Scope, seq<T>>, scope: Scope): seq<T> {
    if scope in queues then queues[scope] else []
  }

  lemma TakenScope(cfg: Config, policy: Policy, e: Engine, event: Event)
    requires IsLate(e.tables, event) ==> policy.Accept?
    ensures Step(cfg, policy, e, event).tables
         == PutScope(e.tables, event.scope, Taken(cfg, ViewOf(e.tables, event.scope), event))
  {
  }

  lemma PutTaken(cfg: Config, t: Tables, event: Event)
    ensures var scope, after := event.scope, PutScope(t, event.scope, Taken(cfg, ViewOf(t, event.scope), event));
            && after.watermarks == t.watermarks[scope := event.availableTs]
            && after.previous == (if 0.0 < event.price then t.previous[scope := event.price] else t.previous)
            && after.prices == t.prices[scope := LastN(QueueOf(t.prices, scope) + [event.price], cfg.window)]
            && after.recent == t.recent[scope := LastN(QueueOf(t.recent, scope) + [event], LogCap(cfg))]
  {
    PutBack(t.previous, event.scope);
  }

  /** Putting back what is there changes nothing. */
  lemma PutBack<V>(m: map<Scope, V>, scope: Scope)
    ensures PutOption(m, scope, Lookup(m, scope)) == m
  {
  }
}
