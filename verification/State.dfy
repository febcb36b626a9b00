/** The runtime's per-scope dictionaries, their snapshot and the way back (`state.py`). */
module State {
  import opened Sequences
  import opened FeatureModel
  import opened Nodes

  /** Everything the runtime remembers about one scope. */
  datatype ScopeState = ScopeState(
    prices: seq<real>,
    previous: Option<real>,
    ema: AggStates,
    watermark: Option<int>,
    recent: seq<Event>,
    history: Histories)

  const EMPTY := ScopeState([], None, map[], None, [], map[])

  /** The six dictionaries; a missing entry means the default one. */
  datatype Tables = Tables(
    window: pos,
    prices: map<Scope, seq<real>>,
    previous: map<Scope, real>,
    agg: AggStates,
    watermarks: map<Scope, int>,
    recent: map<Scope, seq<Event>>,
    history: Histories)

  function Slice<T(==), V>(m: map<Key<T>, V>, scope: Scope): map<Key<T>, V> {
    map k | k in m && k.scope == scope :: m[k]
  }

  function Without<T(==), V>(m: map<Key<T>, V>, scope: Scope): map<Key<T>, V> {
    map k | k in m && k.scope != scope :: m[k]
  }

  function Splice<T(==), V>(m: map<Key<T>, V>, scope: Scope, part: map<Key<T>, V>): map<Key<T>, V> {
    Without(m, scope) + part
  }

  function PutOption<V>(m: map<Scope, V>, scope: Scope, v: Option<V>): map<Scope, V> {
    match v
    case Some(x) => m[scope := x]
    case None => m - {scope}
  }

  function ViewOf(t: Tables, scope: Scope): ScopeState {
    ScopeState(
      if scope in t.prices then t.prices[scope] else [],
      Lookup(t.previous, scope),
      Slice(t.agg, scope),
      Lookup(t.watermarks, scope),
      if scope in t.recent then t.recent[scope] else [],
      Slice(t.history, scope))
  }

  function PutScope(t: Tables, scope: Scope, s: ScopeState): Tables {
    Tables(
      t.window,
      t.prices[scope := s.prices],
      PutOption(t.previous, scope, s.previous),
      Splice(t.agg, scope, s.ema),
      PutOption(t.watermarks, scope, s.watermark),
      t.recent[scope := s.recent],
      Splice(t.history, scope, s.history))
  }

  function DropScope(t: Tables, scope: Scope): Tables {
    Tables(
      t.window,
      t.prices - {scope},
      t.previous - {scope},
      Without(t.agg, scope),
      t.watermarks - {scope},
      t.recent - {scope},
      Without(t.history, scope))
  }

  ghost predicate KeysOf<T, V>(part: map<Key<T>, V>, scope: Scope) {
    forall k :: k in part ==> k.scope == scope
  }

  ghost predicate Scoped(s: ScopeState, scope: Scope) {
    KeysOf(s.ema, scope) && KeysOf(s.history, scope)
  }

  lemma SliceSplice<T, V>(m: map<Key<T>, V>, scope: Scope, part: map<Key<T>, V>, other: Scope)
    requires KeysOf(part, scope)
    ensures Slice(Splice(m, scope, part), other) == if other == scope then part else Slice(m, other)
  {
  }

  lemma SpliceSlice<T, V>(m: map<Key<T>, V>, scope: Scope)
    ensures Splice(m, scope, Slice(m, scope)) == m
  {
  }

  lemma SpliceUpdate<T, V>(m: map<Key<T>, V>, scope: Scope, part: map<Key<T>, V>, k: Key<T>, v: V)
    requires k.scope == scope
    ensures Splice(m, scope, part)[k := v] == Splice(m, scope, part[k := v])
  {
  }

  lemma SpliceSplice<T, V>(m: map<Key<T>, V>, scope: Scope, a: map<Key<T>, V>, b: map<Key<T>, V>)
    requires KeysOf(a, scope) && KeysOf(b, scope)
    ensures Splice(Splice(m, scope, a), scope, b) == Splice(m, scope, b)
  {
  }

  /** Writing one scope changes what is seen of that scope and of no other. */
  lemma ViewPut(t: Tables, scope: Scope, s: ScopeState, other: Scope)
    requires Scoped(s, scope)
    ensures ViewOf(PutScope(t, scope, s), other) == if other == scope then s else ViewOf(t, other)
  {
    SliceSplice(t.agg, scope, s.ema, other);
    SliceSplice(t.history, scope, s.history, other);
  }

  lemma PutOptionTwice<V>(m: map<Scope, V>, scope: Scope, a: Option<V>, b: Option<V>)
    ensures PutOption(PutOption(m, scope, a), scope, b) == PutOption(m, scope, b)
  {
  }

  lemma PutPut(t: Tables, scope: Scope, a: ScopeState, b: ScopeState)
    requires Scoped(a, scope) && Scoped(b, scope)
    ensures PutScope(PutScope(t, scope, a), scope, b) == PutScope(t, scope, b)
  {
    var p := PutScope(t, scope, a);
    assert p.prices[scope := b.prices] == t.prices[scope := b.prices];
    assert p.recent[scope := b.recent] == t.recent[scope := b.recent];
    PutOptionTwice(t.previous, scope, a.previous, b.previous);
    PutOptionTwice(t.watermarks, scope, a.watermark, b.watermark);
    SpliceSplice(t.agg, scope, a.ema, b.ema);
    SpliceSplice(t.history, scope, a.history, b.history);
  }

  /** A reset forgets one scope entirely and touches no other. */
  lemma ViewDrop(t: Tables, scope: Scope, other: Scope)
    ensures ViewOf(DropScope(t, scope), other) == if other == scope then EMPTY else ViewOf(t, other)
  {
  }

  /** The bounds of a scope's queues, and that what is kept for it is its own. */
  ghost predicate Tidy(window: pos, s: ScopeState, scope: Scope) {
    && Scoped(s, scope)
    && (forall k :: k in s.ema ==> k.item.kind == "ema")
    && |s.prices| <= window
    && (forall k :: k in s.history ==> |s.history[k]| <= HISTORY_LIMIT)
    && (forall i :: 0 <= i < |s.recent| ==> s.recent[i].scope == scope)
  }

  ghost predicate InBounds(t: Tables, scope: Scope) {
    Tidy(t.window, ViewOf(t, scope), scope)
  }

  ghost predicate Bounded(t: Tables) {
    forall scope :: InBounds(t, scope)
  }

  lemma BoundedPut(t: Tables, scope: Scope, s: ScopeState)
    requires Bounded(t) && Tidy(t.window, s, scope)
    ensures Bounded(PutScope(t, scope, s))
  {
    var p := PutScope(t, scope, s);
    forall other ensures InBounds(p, other) {
      ViewPut(t, scope, s, other);
      assert InBounds(t, other);
    }
  }
}
