/** The snapshot of the runtime state: two of its dictionaries have keys joined with bars (`state.py`). */
module Snapshot {
  import opened Sequences
  import opened FeatureModel
  import opened Nodes
  import opened State
  import opened ScopeRuntime
  import opened Isolation

  datatype Payload = Payload(
    window: pos,
    prices: map<string, seq<real>>,
    previous: map<string, real>,
    agg: map<string, real>,
    watermarks: map<string, int>,
    recent: map<string, seq<Event>>,
    history: map<string, seq<real>>)

  const DIGITS := "0123456789"

  function NatText(n: nat): (r: string)
    ensures r != [] && forall c :: c in r ==> c in DIGITS
  {
    if n < 10 then [DIGITS[n]] else NatText(n / 10) + [DIGITS[n % 10]]
  }

  function DigitValue(c: char): (r: Option<nat>)
    ensures r.Some? ==> r.value < 10 && DIGITS[r.value] == c
  {
    if '0' <= c <= '9' then Some(c as int - '0' as int) else None
  }

  /** `int(text)` on the texts that `str` makes of natural numbers. */
  function ParseNat(text: string): Option<nat> {
    if text == [] then None
    else
      var last := DigitValue(text[|text| - 1]);
      if last.None? then None
      else if |text| == 1 then last
      else
        var front := ParseNat(text[..|text| - 1]);
        if front.None? then None else Some(10 * front.value + last.value)
  }

  function Decimal(text: string): nat {
    if text == [] then 0
    else
      var digit := text[|text| - 1];
      10 * Decimal(text[..|text| - 1]) + if '0' <= digit <= '9' then digit as int - '0' as int else 0
  }

  /** The decimal text of a number, without leading zeros. */
  ghost predicate IsDecimal(text: string, n: nat) {
    && text != [] && (forall i :: 0 <= i < |text| ==> '0' <= text[i] <= '9')
    && (|text| > 1 ==> text[0] != '0') && Decimal(text) == n
  }

  lemma {:induction false} NatTextIsDecimal(n: nat)
    ensures IsDecimal(NatText(n), n)
  {
    var text := NatText(n);
    if n < 10 {
      DigitIs(n);
      assert Decimal(text[..0]) == 0;
    } else {
      NatTextIsDecimal(n / 10);
      DigitIs(n % 10);
      assert text[..|text| - 1] == NatText(n / 10);
      assert text[0] == NatText(n / 10)[0];
      if |NatText(n / 10)| == 1 {
        FirstDigit(NatText(n / 10));
      }
    }
  }

  lemma FirstDigit(text: string)
    requires text != [] && Decimal(text) > 0 && |text| == 1
    ensures text[0] != '0'
  {
  }

  lemma DigitIs(d: nat)
    requires d < 10
    ensures '0' <= DIGITS[d] <= '9' && DIGITS[d] as int - '0' as int == d
  {
  }

  /** The text before and after the first bar (`split("|", 1)`). */
  function Cut(text: string): Option<(string, string)> {
    if text == [] then None
    else if text[0] == '|' then Some(([], text[1..]))
    else
      var rest := Cut(text[1..]);
      if rest.None? then None else Some(([text[0]] + rest.value.0, rest.value.1))
  }

  function AggText(k: Key<AggItem>): string {
    k.item.kind + "|" + (k.scope + "|" + NatText(k.item.window))
  }

  /** `split("|")` must give three parts, the last a number. */
  function ParseAgg(text: string): Option<Key<AggItem>> {
    var first := Cut(text);
    if first.None? then None
    else
      var second := Cut(first.value.1);
      if second.None? then None
      else
        var window := ParseNat(second.value.1);
        if window.None? then None else Some(Key(second.value.0, AggItem(first.value.0, window.value)))
  }

  function HistoryText(k: Key<string>): string {
    k.scope + "|" + k.item
  }

  function ParseHistory(text: string): Option<Key<string>> {
    var parts := Cut(text);
    if parts.None? then None else Some(Key(parts.value.0, parts.value.1))
  }

  /** `out` is a comprehension over `m` with its keys turned into text; clashing keys keep one value. */
  ghost predicate EncodesTo<K(!new), V>(m: map<K, V>, text: K -> string, out: map<string, V>) {
    && (forall k :: k in m ==> text(k) in out)
    && (forall t :: t in out ==> exists k :: k in m && text(k) == t && out[t] == m[k])
  }

  /** `out` is filled from `m` with its keys parsed and its values cut to size. */
  ghost predicate DecodesTo<K(!new), V>(m: map<string, V>, parse: string -> Option<K>, fit: V -> V, out: map<K, V>) {
    && (forall t :: t in m ==> parse(t).Some? && parse(t).value in out)
    && (forall k :: k in out ==> exists t :: t in m && parse(t) == Some(k) && out[k] == fit(m[t]))
  }

  const FIT_HISTORY := (s: seq<real>) => LastN(s, HISTORY_LIMIT)

  const SAME := (v: real) => v

  ghost predicate IsSnapshot(t: Tables, p: Payload) {
    && p.window == t.window && p.prices == t.prices && p.previous == t.previous
    && p.watermarks == t.watermarks && p.recent == t.recent
    && EncodesTo(t.agg, AggText, p.agg)
    && EncodesTo(t.history, HistoryText, p.history)
  }

  /** The key of an EMA as text: kind, scope and window, with bars in between. */
  ghost predicate SpellsAgg(k: Key<AggItem>, text: string) {
    exists digits :: IsDecimal(digits, k.item.window) && text == k.item.kind + "|" + k.scope + "|" + digits
  }

  ghost predicate SpellsHistory(k: Key<string>, text: string) {
    text == k.scope + "|" + k.item
  }

  /** Every EMA is saved under its joined key, and nothing else is. */
  ghost predicate AggJoined(agg: AggStates, saved: map<string, real>) {
    && (forall k :: k in agg ==> exists text :: text in saved && SpellsAgg(k, text))
    && (forall text :: text in saved ==> exists k :: k in agg && saved[text] == agg[k] && SpellsAgg(k, text))
  }

  /** So is every history. */
  ghost predicate HistoryJoined(history: Histories, saved: map<string, seq<real>>) {
    && (forall k :: k in history ==> exists text :: text in saved && SpellsHistory(k, text))
    && (forall text :: text in saved ==>
          exists k :: k in history && saved[text] == history[k] && SpellsHistory(k, text))
  }

  lemma AggSpelled(k: Key<AggItem>)
    ensures SpellsAgg(k, AggText(k))
  {
    NatTextIsDecimal(k.item.window);
    AppendAssociative(k.item.kind + "|", k.scope + "|", NatText(k.item.window));
    AppendAssociative(k.item.kind + "|", k.scope, "|");
  }

  lemma SnapshotSpelled(t: Tables, p: Payload)
    requires IsSnapshot(t, p)
    ensures AggJoined(t.agg, p.agg) && HistoryJoined(t.history, p.history)
  {
    forall k ensures SpellsAgg(k, AggText(k)) {
      AggSpelled(k);
    }
    HistoriesSpelled(t.history, p.history);
  }

  lemma HistoriesSpelled(history: Histories, saved: map<string, seq<real>>)
    requires EncodesTo(history, HistoryText, saved)
    ensures HistoryJoined(history, saved)
  {
    assert forall k :: SpellsHistory(k, HistoryText(k));
  }

  /** The payload is read without an error and gives `t`. */
  ghost predicate RestoresTo(p: Payload, t: Tables) {
    && t.window == p.window && t.previous == p.previous && t.watermarks == p.watermarks && t.recent == p.recent
    && t.prices == (map s | s in p.prices :: LastN(p.prices[s], p.window))
    && DecodesTo(p.agg, ParseAgg, SAME, t.agg)
    && DecodesTo(p.history, ParseHistory, FIT_HISTORY, t.history)
  }

  lemma {:induction false} ParseNatText(n: nat)
    ensures ParseNat(NatText(n)) == Some(n)
  {
    if n >= 10 {
      ParseNatText(n / 10);
      var text := NatText(n);
      assert text[..|text| - 1] == NatText(n / 10);
    }
  }

  lemma {:induction false} CutJoin(a: string, b: string)
    requires '|' !in a
    ensures Cut(a + "|" + b) == Some((a, b))
  {
    var text := a + "|" + b;
    if a == [] {
      assert text[1..] == b;
    } else {
      assert text[1..] == a[1..] + "|" + b;
      CutJoin(a[1..], b);
      assert a == [a[0]] + a[1..];
    }
  }

  lemma {:induction false} CutPlain(text: string)
    ensures Cut(text).Some? ==> '|' !in Cut(text).value.0
  {
    if text != [] && text[0] != '|' {
      CutPlain(text[1..]);
    }
  }

  lemma AggRoundTrip(k: Key<AggItem>)
    requires '|' !in k.item.kind && '|' !in k.scope
    ensures ParseAgg(AggText(k)) == Some(k)
  {
    CutJoin(k.item.kind, k.scope + "|" + NatText(k.item.window));
    CutJoin(k.scope, NatText(k.item.window));
    ParseNatText(k.item.window);
  }

  lemma ParsedPlain(text: string)
    ensures ParseAgg(text).Some? ==> '|' !in ParseAgg(text).value.scope
    ensures ParseHistory(text).Some? ==> '|' !in ParseHistory(text).value.scope
  {
    CutPlain(text);
    if Cut(text).Some? {
      CutPlain(Cut(text).value.1);
    }
  }

  lemma EncodedDecodes<K(!new), V>(m: map<K, V>, text: K -> string, enc: map<string, V>, parse: string -> Option<K>,
                                   fit: V -> V)
    requires forall k :: k in m ==> parse(text(k)) == Some(k) && fit(m[k]) == m[k]
    requires EncodesTo(m, text, enc)
    ensures DecodesTo(enc, parse, fit, m)
  {
    forall t | t in enc ensures parse(t).Some? && parse(t).value in m {
      var k :| k in m && text(k) == t && enc[t] == m[k];
    }
    forall k | k in m ensures exists t :: t in enc && parse(t) == Some(k) && m[k] == fit(enc[t]) {
      EncodedValue(m, text, enc, parse, k);
      assert text(k) in enc;
    }
  }

  lemma DecodedKeys<K(!new), V>(m: map<K, V>, text: K -> string, enc: map<string, V>,
                                parse: string -> Option<K>, fit: V -> V, dec: map<K, V>)
    requires forall k :: k in m ==> parse(text(k)) == Some(k)
    requires EncodesTo(m, text, enc) && DecodesTo(enc, parse, fit, dec)
    ensures dec.Keys == m.Keys
  {
    forall k ensures k in dec <==> k in m {
      if k in m {
        assert parse(text(k)) == Some(k) && text(k) in enc;
      }
      if k in dec {
        var t :| t in enc && parse(t) == Some(k) && dec[k] == fit(enc[t]);
        var j :| j in m && text(j) == t && enc[t] == m[j];
      }
    }
  }

  lemma DecodedIsEncoded<K(!new), V>(m: map<K, V>, text: K -> string, enc: map<string, V>,
                                     parse: string -> Option<K>, fit: V -> V, dec: map<K, V>)
    requires forall k :: k in m ==> parse(text(k)) == Some(k) && fit(m[k]) == m[k]
    requires EncodesTo(m, text, enc) && DecodesTo(enc, parse, fit, dec)
    ensures dec == m
  {
    DecodedKeys(m, text, enc, parse, fit, dec);
    forall k | k in m ensures dec[k] == m[k] {
      var t :| t in enc && parse(t) == Some(k) && dec[k] == fit(enc[t]);
      var j :| j in m && text(j) == t && enc[t] == m[j];
    }
  }

  lemma EncodedValue<K(!new), V>(m: map<K, V>, text: K -> string, enc: map<string, V>, parse: string -> Option<K>, k: K)
    requires forall j :: j in m ==> parse(text(j)) == Some(j)
    requires EncodesTo(m, text, enc) && k in m
    ensures text(k) in enc && enc[text(k)] == m[k]
  {
    var j :| j in m && text(j) == text(k) && enc[text(k)] == m[j];
    assert parse(text(j)) == Some(j) && parse(text(k)) == Some(k);
  }

  predicate PlainAgg(t: Tables) {
    forall k :: k in t.agg ==> '|' !in k.scope
  }

  predicate NoBars(t: Tables) {
    PlainAgg(t) && forall k :: k in t.history ==> '|' !in k.scope
  }

  lemma {:induction false} NumbersPlain(text: string)
    ensures ParseNat(text).Some? ==> '|' !in text
  {
    if |text| > 1 {
      FrontLast(text);
      NumbersPlain(text[..|text| - 1]);
    } else {
      assert text != [] ==> text == [text[0]];
    }
  }

  /** A cut in front of the joining bar leaves that bar behind. */
  lemma {:induction false} CutEarly(a: string, b: string)
    requires '|' in a
    ensures Cut(a + "|" + b).Some? && '|' in Cut(a + "|" + b).value.1
  {
    var text := a + "|" + b;
    assert text[0] == a[0] && text[1..] == a[1..] + "|" + b;
    if a[0] == '|' {
      assert text[1..][|a| - 1] == '|';
    } else {
      CutEarly(a[1..], b);
    }
  }

  /** The key of an EMA state splits into three parts exactly when its scope has no bar. */
  lemma AggParsesIff(k: Key<AggItem>)
    requires '|' !in k.item.kind
    ensures ParseAgg(AggText(k)).Some? <==> '|' !in k.scope
  {
    if '|' in k.scope {
      var number := NatText(k.item.window);
      CutJoin(k.item.kind, k.scope + "|" + number);
      CutEarly(k.scope, number);
      NumbersPlain(Cut(k.scope + "|" + number).value.1);
    } else {
      AggRoundTrip(k);
    }
  }

  /** The key of a history always splits, and into what it was joined from exactly when its scope has no bar. */
  lemma HistoryParsesIff(k: Key<string>)
    ensures ParseHistory(HistoryText(k)).Some?
    ensures ParseHistory(HistoryText(k)) == Some(k) <==> '|' !in k.scope
  {
    if '|' in k.scope {
      CutEarly(k.scope, k.item);
      CutPlain(HistoryText(k));
    } else {
      CutJoin(k.scope, k.item);
    }
  }

  lemma BoundedTables(t: Tables)
    requires Bounded(t)
    ensures forall s :: s in t.prices ==> |t.prices[s]| <= t.window
    ensures forall k :: k in t.history ==> |t.history[k]| <= HISTORY_LIMIT
    ensures forall k :: k in t.agg ==> k.item.kind == "ema"
  {
    forall s | s in t.prices ensures |t.prices[s]| <= t.window {
      assert InBounds(t, s);
    }
    forall k | k in t.history ensures |t.history[k]| <= HISTORY_LIMIT {
      assert InBounds(t, k.scope);
      assert k in ViewOf(t, k.scope).history;
    }
    forall k | k in t.agg ensures k.item.kind == "ema" {
      assert InBounds(t, k.scope);
      assert k in ViewOf(t, k.scope).ema;
    }
  }

  lemma AggKeysParse(t: Tables)
    requires Bounded(t) && NoBars(t)
    ensures forall k :: k in t.agg ==> ParseAgg(AggText(k)) == Some(k) && SAME(t.agg[k]) == t.agg[k]
  {
    BoundedTables(t);
    forall k | k in t.agg ensures ParseAgg(AggText(k)) == Some(k) && SAME(t.agg[k]) == t.agg[k] {
      AggRoundTrip(k);
    }
  }

  lemma HistoryKeysParse(t: Tables)
    requires Bounded(t) && NoBars(t)
    ensures forall k :: k in t.history ==>
      ParseHistory(HistoryText(k)) == Some(k) && FIT_HISTORY(t.history[k]) == t.history[k]
  {
    BoundedTables(t);
    forall k | k in t.history
      ensures ParseHistory(HistoryText(k)) == Some(k) && FIT_HISTORY(t.history[k]) == t.history[k] {
      CutJoin(k.scope, k.item);
    }
  }

  lemma PricesFit(t: Tables)
    requires Bounded(t)
    ensures t.prices == (map s | s in t.prices :: LastN(t.prices[s], t.window))
  {
    BoundedTables(t);
  }

  lemma PlainRestores(t: Tables, p: Payload)
    requires Bounded(t) && IsSnapshot(t, p) && NoBars(t)
    ensures RestoresTo(p, t)
  {
    AggKeysParse(t);
    HistoryKeysParse(t);
    PricesFit(t);
    EncodedDecodes(t.agg, AggText, p.agg, ParseAgg, SAME);
    EncodedDecodes(t.history, HistoryText, p.history, ParseHistory, FIT_HISTORY);
  }

  /** Without bars the payload is read as the state it came from, and as nothing else. */
  lemma RestoreUnique(t: Tables, p: Payload, other: Tables)
    requires Bounded(t) && IsSnapshot(t, p) && NoBars(t) && RestoresTo(p, other)
    ensures other == t
  {
    AggKeysParse(t);
    HistoryKeysParse(t);
    PricesFit(t);
    DecodedIsEncoded(t.agg, AggText, p.agg, ParseAgg, SAME, other.agg);
    DecodedIsEncoded(t.history, HistoryText, p.history, ParseHistory, FIT_HISTORY, other.history);
  }

  lemma RestoredPlain(p: Payload, t: Tables)
    requires RestoresTo(p, t)
    ensures NoBars(t)
  {
    forall k | k in t.agg ensures '|' !in k.scope {
      var text :| text in p.agg && ParseAgg(text) == Some(k) && t.agg[k] == SAME(p.agg[text]);
      ParsedPlain(text);
    }
    forall k | k in t.history ensures '|' !in k.scope {
      var text :| text in p.history && ParseHistory(text) == Some(k) && t.history[k] == FIT_HISTORY(p.history[text]);
      ParsedPlain(text);
    }
  }

  /** A reachable state comes back from its snapshot exactly when no scope in a joined key has a bar. */
  lemma SnapshotRoundTrip(t: Tables, p: Payload)
    requires Bounded(t) && IsSnapshot(t, p)
    ensures RestoresTo(p, t) <==> NoBars(t)
  {
    if NoBars(t) {
      PlainRestores(t, p);
    } else if RestoresTo(p, t) {
      RestoredPlain(p, t);
    }
  }

  /** An event of a scope with a bar leaves that scope in a joined key as soon as it yields a value. */
  lemma BarredScopeReached(cfg: Config, policy: Policy, e: Engine, event: Event)
    requires Sound(cfg, e) && '|' in event.scope && !Late(ViewOf(e.tables, event.scope), event)
    requires PassFor(cfg, ViewOf(e.tables, event.scope), event).values != map[]
    ensures !NoBars(Step(cfg, policy, e, event).tables)
  {
    var s := ViewOf(e.tables, event.scope);
    var values := PassFor(cfg, s, event).values;
    assert PassFor(cfg, Recorded(cfg, s, event), event) == PassFor(cfg, s, event);
    StepView(cfg, policy, e, event, event.scope);
    var name :| name in values;
    assert Key(event.scope, name) in ViewOf(Step(cfg, policy, e, event).tables, event.scope).history;
  }

  ghost predicate PlainScopes(events: seq<Event>) {
    forall i :: 0 <= i < |events| ==> '|' !in events[i].scope
  }

  lemma ViewsPlain(t: Tables)
    ensures NoBars(t)
      <==> forall scope :: '|' in scope ==>
             ViewOf(t, scope).ema == map[] && ViewOf(t, scope).history == map[]
  {
    if NoBars(t) {
      forall scope | '|' in scope ensures ViewOf(t, scope).ema == map[] && ViewOf(t, scope).history == map[] {
      }
    } else {
      if k :| k in t.agg && '|' in k.scope {
        assert k in ViewOf(t, k.scope).ema;
      } else {
        var k :| k in t.history && '|' in k.scope;
        assert k in ViewOf(t, k.scope).history;
      }
    }
  }

  lemma {:induction false} RunPlain(cfg: Config, policy: Policy, e: Engine, events: seq<Event>)
    requires Sound(cfg, e) && NoBars(e.tables) && PlainScopes(events)
    ensures NoBars(Run(cfg, policy, e, events).tables)
  {
    if events != [] {
      var front, last := events[..|events| - 1], events[|events| - 1];
      RunPlain(cfg, policy, e, front);
      RunSound(cfg, policy, e, front);
      var before := Run(cfg, policy, e, front);
      var after := Step(cfg, policy, before, last);
      ViewsPlain(before.tables);
      forall scope | '|' in scope
        ensures ViewOf(after.tables, scope).ema == map[] && ViewOf(after.tables, scope).history == map[] {
        StepView(cfg, policy, before, last, scope);
      }
      ViewsPlain(after.tables);
    }
  }

  function StepIn(cfg: Config, policy: Policy): (Engine, Event) -> Engine {
    (e: Engine, event: Event) => Step(cfg, policy, e, event)
  }

  function OutputIn(cfg: Config, policy: Policy): (Engine, Event) -> Option<Vector> {
    (e: Engine, event: Event) => StepOutput(cfg, policy, e, event)
  }

  lemma {:induction false} RunIsFold(cfg: Config, policy: Policy, e: Engine, events: seq<Event>)
    ensures Run(cfg, policy, e, events) == Fold(StepIn(cfg, policy), e, events)
    ensures RunOutputs(cfg, policy, e, events) == Trace(StepIn(cfg, policy), OutputIn(cfg, policy), e, events)
  {
    if events != [] {
      RunIsFold(cfg, policy, e, events[..|events| - 1]);
    }
  }

  lemma RunAppend(cfg: Config, policy: Policy, e: Engine, xs: seq<Event>, ys: seq<Event>)
    ensures Run(cfg, policy, e, xs + ys) == Run(cfg, policy, Run(cfg, policy, e, xs), ys)
    ensures RunOutputs(cfg, policy, e, xs + ys)
         == RunOutputs(cfg, policy, e, xs) + RunOutputs(cfg, policy, Run(cfg, policy, e, xs), ys)
  {
    RunIsFold(cfg, policy, e, xs + ys);
    RunIsFold(cfg, policy, e, xs);
    RunIsFold(cfg, policy, Run(cfg, policy, e, xs), ys);
    FoldAppend(StepIn(cfg, policy), e, xs, ys);
    TraceAppend(StepIn(cfg, policy), OutputIn(cfg, policy), e, xs, ys);
  }

  /**
    * Saving after any prefix, restoring and going on gives the state and the outputs of one
    * uninterrupted run, late events and rewinds included.
    */
  lemma ResumeEqualsContinuous(cfg: Config, policy: Policy, e: Engine, xs: seq<Event>, ys: seq<Event>, p: Payload,
                               t: Tables)
    requires Sound(cfg, e) && NoBars(e.tables) && PlainScopes(xs)
    requires IsSnapshot(Run(cfg, policy, e, xs).tables, p) && RestoresTo(p, t)
    ensures var resumed := Run(cfg, policy, e, xs).(tables := t);
            && Run(cfg, policy, e, xs + ys) == Run(cfg, policy, resumed, ys)
            && RunOutputs(cfg, policy, e, xs + ys)
                 == RunOutputs(cfg, policy, e, xs) + RunOutputs(cfg, policy, resumed, ys)
  {
    RunSound(cfg, policy, e, xs);
    RunPlain(cfg, policy, e, xs);
    RestoreUnique(Run(cfg, policy, e, xs).tables, p, t);
    RunAppend(cfg, policy, e, xs, ys);
  }

  // ---- what any payload is read as ----

  predicate AllDigits(text: string) {
    text != [] && forall i :: 0 <= i < |text| ==> '0' <= text[i] <= '9'
  }

  lemma {:induction false} ParseNatIs(text: string)
    ensures ParseNat(text) == if AllDigits(text) then Some(Decimal(text)) else None
  {
    if text != [] {
      var n := |text| - 1;
      assert AllDigits(text) <==> '0' <= text[n] <= '9' && (n == 0 || AllDigits(text[..n]));
      if n == 0 {
        assert Decimal(text[..0]) == 0;
      } else {
        ParseNatIs(text[..n]);
      }
    }
  }

  /** The text before the first bar and the text after it. */
  lemma {:induction false} CutIs(text: string, a: string, b: string)
    ensures Cut(text) == Some((a, b)) <==> '|' !in a && text == a + "|" + b
  {
    if '|' !in a && text == a + "|" + b {
      CutJoin(a, b);
    }
    if Cut(text) == Some((a, b)) {
      CutPlain(text);
      CutRejoins(text);
    }
  }

  lemma {:induction false} CutRejoins(text: string)
    ensures Cut(text).Some? ==> text == Cut(text).value.0 + "|" + Cut(text).value.1
  {
    if text != [] {
      assert text == [text[0]] + text[1..];
      if text[0] != '|' {
        CutRejoins(text[1..]);
      }
    }
  }

  /** Kind, scope and a number, with bars in between and none within. */
  ghost predicate SplitsAgg(text: string, k: Key<AggItem>) {
    '|' !in k.item.kind && '|' !in k.scope && exists digits :: AggParts(text, k, digits)
  }

  predicate AggParts(text: string, k: Key<AggItem>, digits: string) {
    AllDigits(digits) && Decimal(digits) == k.item.window && text == k.item.kind + "|" + (k.scope + "|" + digits)
  }

  /** Scope and name, split at the first bar. */
  predicate SplitsHistory(text: string, k: Key<string>) {
    '|' !in k.scope && text == k.scope + "|" + k.item
  }

  lemma ParseAggIs(text: string, k: Key<AggItem>)
    ensures ParseAgg(text) == Some(k) <==> SplitsAgg(text, k)
  {
    if SplitsAgg(text, k) {
      var digits :| AggParts(text, k, digits);
      CutIs(text, k.item.kind, k.scope + "|" + digits);
      CutIs(k.scope + "|" + digits, k.scope, digits);
      ParseNatIs(digits);
    }
    if ParseAgg(text) == Some(k) {
      var rest := Cut(text).value.1;
      var digits := Cut(rest).value.1;
      CutIs(text, k.item.kind, rest);
      CutIs(rest, k.scope, digits);
      ParseNatIs(digits);
      assert AggParts(text, k, digits);
    }
  }

  /** The last n values, or all if there are no more. */
  predicate Ends(all: seq<real>, kept: seq<real>, n: nat) {
    |kept| == (if |all| < n then |all| else n) && kept == all[|all| - |kept|..]
  }

  /** `k` was read from this saved entry. */
  ghost predicate AggFrom(saved: map<string, real>, text: string, k: Key<AggItem>, value: real) {
    text in saved && SplitsAgg(text, k) && value == saved[text]
  }

  ghost predicate HistoryFrom(saved: map<string, seq<real>>, text: string, k: Key<string>, values: seq<real>) {
    text in saved && SplitsHistory(text, k) && Ends(saved[text], values, 512)
  }

  ghost predicate AggRestored(saved: map<string, real>, agg: AggStates) {
    && (forall text :: text in saved ==> exists k :: k in agg && SplitsAgg(text, k))
    && (forall k :: k in agg ==> exists text :: AggFrom(saved, text, k, agg[k]))
  }

  ghost predicate HistoryRestored(saved: map<string, seq<real>>, history: Histories) {
    && (forall text :: text in saved ==> exists k :: k in history && SplitsHistory(text, k))
    && (forall k :: k in history ==> exists text :: HistoryFrom(saved, text, k, history[k]))
  }

  ghost predicate PricesRestored(saved: map<string, seq<real>>, prices: map<Scope, seq<real>>, window: pos) {
    saved.Keys == prices.Keys && forall s :: s in saved ==> Ends(saved[s], prices[s], window)
  }

  /** What any payload that can be read restores to, reachable or not. */
  lemma PayloadRestored(p: Payload, t: Tables)
    requires RestoresTo(p, t)
    ensures t.window == p.window && t.previous == p.previous && t.watermarks == p.watermarks && t.recent == p.recent
    ensures PricesRestored(p.prices, t.prices, p.window)
    ensures AggRestored(p.agg, t.agg) && HistoryRestored(p.history, t.history)
  {
    AggIsRestored(p.agg, t.agg);
    HistoryIsRestored(p.history, t.history);
  }

  lemma AggSplits(saved: map<string, real>, agg: AggStates, text: string) returns (k: Key<AggItem>)
    requires DecodesTo(saved, ParseAgg, SAME, agg) && text in saved
    ensures k in agg && SplitsAgg(text, k)
  {
    k := ParseAgg(text).value;
    ParseAggIs(text, k);
  }

  lemma AggSource(saved: map<string, real>, agg: AggStates, k: Key<AggItem>) returns (text: string)
    requires DecodesTo(saved, ParseAgg, SAME, agg) && k in agg
    ensures AggFrom(saved, text, k, agg[k])
  {
    text :| text in saved && ParseAgg(text) == Some(k) && agg[k] == SAME(saved[text]);
    ParseAggIs(text, k);
  }

  lemma HistorySplits(saved: map<string, seq<real>>, history: Histories, text: string) returns (k: Key<string>)
    requires DecodesTo(saved, ParseHistory, FIT_HISTORY, history) && text in saved
    ensures k in history && SplitsHistory(text, k)
  {
    k := ParseHistory(text).value;
    CutIs(text, k.scope, k.item);
  }

  lemma HistorySource(saved: map<string, seq<real>>, history: Histories, k: Key<string>) returns (text: string)
    requires DecodesTo(saved, ParseHistory, FIT_HISTORY, history) && k in history
    ensures HistoryFrom(saved, text, k, history[k])
  {
    text :| text in saved && ParseHistory(text) == Some(k) && history[k] == FIT_HISTORY(saved[text]);
    CutIs(text, k.scope, k.item);
  }

  lemma AggIsRestored(saved: map<string, real>, agg: AggStates)
    requires DecodesTo(saved, ParseAgg, SAME, agg)
    ensures AggRestored(saved, agg)
  {
    forall text | text in saved ensures exists k :: k in agg && SplitsAgg(text, k) {
      var k := AggSplits(saved, agg, text);
    }
    forall k | k in agg ensures exists text :: AggFrom(saved, text, k, agg[k]) {
      var text := AggSource(saved, agg, k);
    }
  }

  lemma HistoryIsRestored(saved: map<string, seq<real>>, history: Histories)
    requires DecodesTo(saved, ParseHistory, FIT_HISTORY, history)
    ensures HistoryRestored(saved, history)
  {
    forall text | text in saved ensures exists k :: k in history && SplitsHistory(text, k) {
      var k := HistorySplits(saved, history, text);
    }
    forall k | k in history ensures exists text :: HistoryFrom(saved, text, k, history[k]) {
      var text := HistorySource(saved, history, k);
    }
  }
}
