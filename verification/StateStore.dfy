/** `RuntimeStateStore`: the mutable holder of the dictionaries (`state.py`). */
module StateStore {
  import opened Sequences
  import opened FeatureModel
  import opened Nodes
  import opened State
  import opened Snapshot

  /** A dictionary comprehension whose keys are turned into text. */
  method Encode<K(==,!new), V>(m: map<K, V>, text: K -> string) returns (out: map<string, V>)
    ensures EncodesTo(m, text, out)
  {
    out := map[];
    var todo := m.Keys;
    while todo != {}
      invariant todo <= m.Keys
      invariant EncodesTo(map k | k in m && k !in todo :: m[k], text, out)
      decreases todo
    {
      var k :| k in todo;
      EncodeNext(map j | j in m && j !in todo :: m[j], text, out, k, m[k]);
      assert (map j | j in m && j !in todo :: m[j])[k := m[k]] == map j | j in m && j !in todo - {k} :: m[j];
      out := out[text(k) := m[k]];
      todo := todo - {k};
    }
    assert m == map k | k in m && k !in {} :: m[k];
  }

  lemma EncodeNext<K(!new), V>(m: map<K, V>, text: K -> string, out: map<string, V>, k: K, v: V)
    requires EncodesTo(m, text, out) && k !in m
    ensures EncodesTo(m[k := v], text, out[text(k) := v])
  {
    var m', out' := m[k := v], out[text(k) := v];
    forall t | t in out' ensures exists j :: j in m' && text(j) == t && out'[t] == m'[j] {
      if t == text(k) {
        assert k in m' && out'[t] == m'[k];
      } else {
        var j :| j in m && text(j) == t && out[t] == m[j];
        assert j in m' && m'[j] == m[j];
      }
    }
  }

  predicate Parses<K, V>(m: map<string, V>, parse: string -> Option<K>) {
    forall text :: text in m ==> parse(text).Some?
  }

  /** Fill a dictionary from text keys; `ok` is false when some key does not parse. */
  method Decode<K(==,!new), V>(m: map<string, V>, parse: string -> Option<K>, fit: V -> V)
    returns (ok: bool, out: map<K, V>)
    ensures ok <==> Parses(m, parse)
    ensures ok ==> DecodesTo(m, parse, fit, out)
  {
    out := map[];
    ok := true;
    var todo := m.Keys;
    while todo != {}
      invariant todo <= m.Keys && DecodedBut(m, todo, parse, fit, out)
      decreases todo
    {
      var t :| t in todo;
      if parse(t).None? {
        ok := false;
        return;
      }
      DecodedButNext(m, todo, parse, fit, out, t);
      out := out[parse(t).value := fit(m[t])];
      todo := todo - {t};
    }
    assert m == map t | t in m && t !in {} :: m[t];
  }

  /** Every key but those still to do is decoded. */
  ghost predicate DecodedBut<K(!new), V>(m: map<string, V>, todo: set<string>, parse: string -> Option<K>,
                                         fit: V -> V, out: map<K, V>) {
    DecodesTo(map t | t in m && t !in todo :: m[t], parse, fit, out)
  }

  lemma DecodedButNext<K(!new), V>(m: map<string, V>, todo: set<string>, parse: string -> Option<K>, fit: V -> V,
                                   out: map<K, V>, t: string)
    requires DecodedBut(m, todo, parse, fit, out) && t in m && t in todo && parse(t).Some?
    ensures DecodedBut(m, todo - {t}, parse, fit, out[parse(t).value := fit(m[t])])
  {
    var done := map s | s in m && s !in todo :: m[s];
    DecodeNext(done, parse, fit, out, t, m[t]);
    assert done[t := m[t]] == map s | s in m && s !in todo - {t} :: m[s];
  }

  lemma DecodeNext<K(!new), V>(m: map<string, V>, parse: string -> Option<K>, fit: V -> V, out: map<K, V>, t: string,
                               v: V)
    requires DecodesTo(m, parse, fit, out) && t !in m && parse(t).Some?
    ensures DecodesTo(m[t := v], parse, fit, out[parse(t).value := fit(v)])
  {
    var m', out' := m[t := v], out[parse(t).value := fit(v)];
    forall k | k in out' ensures exists s :: s in m' && parse(s) == Some(k) && out'[k] == fit(m'[s]) {
      if k == parse(t).value {
        assert t in m' && out'[k] == fit(m'[t]);
      } else {
        var s :| s in m && parse(s) == Some(k) && out[k] == fit(m[s]);
        assert s in m' && m'[s] == m[s];
      }
    }
  }

  class RuntimeStateStore {
    const effectiveWindow: pos
    var prices: map<Scope, seq<real>>
    var previousPrice: map<Scope, real>
    var aggState: AggStates
    var watermarks: map<Scope, int>
    var recentEvents: map<Scope, seq<Event>>
    var nodeHistory: Histories

    ghost function Value(): Tables
      reads this
    {
      Tables(effectiveWindow, prices, previousPrice, aggState, watermarks, recentEvents, nodeHistory)
    }

    constructor (window: pos)
      ensures Value() == Tables(window, map[], map[], map[], map[], map[], map[])
    {
      effectiveWindow := window;
      prices, previousPrice, aggState := map[], map[], map[];
      watermarks, recentEvents, nodeHistory := map[], map[], map[];
    }

    constructor Of(t: Tables)
      ensures Value() == t
    {
      effectiveWindow := t.window;
      prices, previousPrice, aggState := t.prices, t.previous, t.agg;
      watermarks, recentEvents, nodeHistory := t.watermarks, t.recent, t.history;
    }

    method ResetScope(scope: Scope)
      modifies this
      ensures Value() == DropScope(old(Value()), scope)
    {
      prices := prices - {scope};
      previousPrice := previousPrice - {scope};
      watermarks := watermarks - {scope};
      recentEvents := recentEvents - {scope};
      aggState := Without(aggState, scope);
      nodeHistory := Without(nodeHistory, scope);
    }

    method Snapshot() returns (p: Payload)
      ensures IsSnapshot(Value(), p)
    {
      var agg := Encode(aggState, AggText);
      var history := Encode(nodeHistory, HistoryText);
      p := Payload(effectiveWindow, prices, previousPrice, agg, watermarks, recentEvents, history);
    }

    /** `from_snapshot`; nothing comes back when a joined key does not split as expected. */
    static method FromSnapshot(p: Payload) returns (r: RuntimeStateStore?)
      ensures r != null <==> Readable(p)
      ensures r != null ==> fresh(r) && RestoresTo(p, r.Value())
    {
      var ok, t := ReadPayload(p);
      if !ok {
        return null;
      }
      r := new RuntimeStateStore.Of(t);
    }
  }

  /** Every joined key splits into its parts. */
  predicate Readable(p: Payload) {
    Parses(p.agg, ParseAgg) && Parses(p.history, ParseHistory)
  }

  lemma EncodedParses<K(!new), V>(m: map<K, V>, text: K -> string, enc: map<string, V>, parse: string -> Option<K>)
    requires EncodesTo(m, text, enc)
    ensures Parses(enc, parse) <==> forall k :: k in m ==> parse(text(k)).Some?
  {
    forall t | t in enc && forall k :: k in m ==> parse(text(k)).Some? ensures parse(t).Some? {
      var k :| k in m && text(k) == t && enc[t] == m[k];
    }
    forall k | k in m && Parses(enc, parse) ensures parse(text(k)).Some? {
      assert text(k) in enc;
    }
  }

  /** The snapshot of a reachable state is read at all exactly when no EMA scope has a bar. */
  lemma ReadableIff(t: Tables, p: Payload)
    requires Bounded(t) && IsSnapshot(t, p)
    ensures Readable(p) <==> PlainAgg(t)
  {
    BoundedTables(t);
    EncodedParses(t.agg, AggText, p.agg, ParseAgg);
    forall k | k in t.agg ensures ParseAgg(AggText(k)).Some? <==> '|' !in k.scope {
      AggParsesIff(k);
    }
    HistoriesParse(t, p);
  }

  lemma HistoriesParse(t: Tables, p: Payload)
    requires EncodesTo(t.history, HistoryText, p.history)
    ensures Parses(p.history, ParseHistory)
  {
    EncodedParses(t.history, HistoryText, p.history, ParseHistory);
    forall k | k in t.history ensures ParseHistory(HistoryText(k)).Some? {
      HistoryParsesIff(k);
    }
  }

  method ReadPayload(p: Payload) returns (ok: bool, t: Tables)
    ensures ok <==> Readable(p)
    ensures ok ==> RestoresTo(p, t)
  {
    var aggOk, agg := Decode(p.agg, ParseAgg, SAME);
    var historyOk, history := Decode(p.history, ParseHistory, FIT_HISTORY);
    ok := aggOk && historyOk;
    var fitted := map s | s in p.prices :: LastN(p.prices[s], p.window);
    t := Tables(p.window, fitted, p.previous, agg, p.watermarks, p.recent, history);
    PayloadRead(p, agg, history);
  }

  lemma PayloadRead(p: Payload, agg: AggStates, history: Histories)
    ensures DecodesTo(p.agg, ParseAgg, SAME, agg) && DecodesTo(p.history, ParseHistory, FIT_HISTORY, history)
      ==> RestoresTo(p, Tables(p.window, map s | s in p.prices :: LastN(p.prices[s], p.window), p.previous, agg,
                               p.watermarks, p.recent, history))
  {
  }
}
