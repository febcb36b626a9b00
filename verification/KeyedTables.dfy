/** A table keyed by its primary key, and the writes that reach each of its rows. */
module KeyedTables {
  import opened Sequences
  import opened Nodes

  datatype Keyed<+K, +W> = Keyed(key: K, write: W)

  /** What a write makes of the row it finds, if any; a row is never deleted. */
  function Touch<K, V, W>(step: (Option<V>, W) -> Option<V>, table: map<K, V>, w: Keyed<K, W>): map<K, V> {
    var after := step(Lookup(table, w.key), w.write);
    if after.Some? then table[w.key := after.value] else table
  }

  function TouchAll<K, V, W>(step: (Option<V>, W) -> Option<V>, table: map<K, V>, ws: seq<Keyed<K, W>>): map<K, V> {
    if ws == [] then table else Touch(step, TouchAll(step, table, ws[..|ws| - 1]), ws[|ws| - 1])
  }

  /** The writes to one row, in order. */
  function Own<K(==), W>(ws: seq<Keyed<K, W>>, key: K): seq<W> {
    if ws == [] then []
    else if ws[|ws| - 1].key == key then Own(ws[..|ws| - 1], key) + [ws[|ws| - 1].write]
    else Own(ws[..|ws| - 1], key)
  }

  /** What a step makes of a row it never deletes. */
  ghost predicate Keeps<V(!new), W(!new)>(step: (Option<V>, W) -> Option<V>) {
    forall v, w :: step(Some(v), w).Some?
  }

  lemma {:induction false} RowAfter<K, V(!new), W(!new)>(step: (Option<V>, W) -> Option<V>, table: map<K, V>,
                                                         ws: seq<Keyed<K, W>>, key: K)
    requires Keeps(step)
    ensures Lookup(TouchAll(step, table, ws), key) == Fold(step, Lookup(table, key), Own(ws, key))
  {
    if ws != [] {
      var front, last := ws[..|ws| - 1], ws[|ws| - 1];
      RowAfter(step, table, front, key);
      if last.key == key {
        var own := Own(ws, key);
        assert own[..|own| - 1] == Own(front, key) && own[|own| - 1] == last.write;
      }
    }
  }

  lemma {:induction false} TouchAppend<K, V, W>(step: (Option<V>, W) -> Option<V>, table: map<K, V>,
                                                a: seq<Keyed<K, W>>, b: seq<Keyed<K, W>>)
    ensures TouchAll(step, table, a + b) == TouchAll(step, TouchAll(step, table, a), b)
  {
    if b == [] {
      assert a + b == a;
    } else {
      assert (a + b)[..|a + b| - 1] == a + b[..|b| - 1];
      TouchAppend(step, table, a, b[..|b| - 1]);
    }
  }

  lemma {:induction false} OwnAppend<K, W>(a: seq<Keyed<K, W>>, b: seq<Keyed<K, W>>, key: K)
    ensures Own(a + b, key) == Own(a, key) + Own(b, key)
  {
    if b == [] {
      assert a + b == a;
    } else {
      assert (a + b)[..|a + b| - 1] == a + b[..|b| - 1];
      OwnAppend(a, b[..|b| - 1], key);
    }
  }

  lemma SameRows<K(!new), V>(a: map<K, V>, b: map<K, V>)
    requires forall k :: Lookup(a, k) == Lookup(b, k)
    ensures a == b
  {
    forall k ensures k in a <==> k in b {
      assert Lookup(a, k) == Lookup(b, k);
    }
    forall k | k in a ensures a[k] == b[k] {
      assert Lookup(a, k) == Lookup(b, k);
    }
  }

  /** Row by row, `after` has received the first of the writes `ws`, no two rows necessarily equally many. */
  ghost predicate Partly<K(!new), V, W>(step: (Option<V>, W) -> Option<V>, table: map<K, V>, ws: seq<Keyed<K, W>>,
                                        after: map<K, V>) {
    forall key :: RowPartly(step, table, ws, after, key)
  }

  ghost predicate RowPartly<K, V, W>(step: (Option<V>, W) -> Option<V>, table: map<K, V>, ws: seq<Keyed<K, W>>,
                                     after: map<K, V>, key: K) {
    exists n :: 0 <= n <= |Own(ws, key)| && Lookup(after, key) == Fold(step, Lookup(table, key), Own(ws, key)[..n])
  }

  /** Stopping after any number of the writes leaves the table partly written. */
  lemma PrefixIsPartly<K(!new), V(!new), W(!new)>(step: (Option<V>, W) -> Option<V>, table: map<K, V>,
                                                  a: seq<Keyed<K, W>>, b: seq<Keyed<K, W>>)
    requires Keeps(step)
    ensures Partly(step, table, a + b, TouchAll(step, table, a))
  {
    forall key ensures RowPartly(step, table, a + b, TouchAll(step, table, a), key) {
      RowAfter(step, table, a, key);
      OwnAppend(a, b, key);
      assert Own(a + b, key)[..|Own(a, key)|] == Own(a, key);
    }
  }

  /**
    * Some of the writes `w` made too early do no harm: once the writes `g` and all of `w` were made,
    * nothing is left of them.
    */
  ghost predicate MakesUp<V(!new), G(!new), W(!new)>(other: (Option<V>, G) -> Option<V>,
                                                     step: (Option<V>, W) -> Option<V>,
                                                     g: seq<G>, w: seq<W>) {
    forall x, n :: 0 <= n <= |w| ==> MadeUp(other, step, x, g, w, n)
  }

  ghost predicate MadeUp<V, G, W>(other: (Option<V>, G) -> Option<V>, step: (Option<V>, W) -> Option<V>,
                                  x: Option<V>, g: seq<G>, w: seq<W>, n: nat)
    requires n <= |w|
  {
    Fold(step, Fold(other, Fold(step, x, w[..n]), g), w) == Fold(step, Fold(other, x, g), w)
  }

  /** If every row makes up for it, then so does the table, whatever else follows. */
  lemma TableMakesUp<K(!new), V(!new), G(!new), W(!new)>(
      other: (Option<V>, G) -> Option<V>, step: (Option<V>, W) -> Option<V>, table: map<K, V>, after: map<K, V>,
      g: seq<Keyed<K, G>>, w: seq<Keyed<K, W>>, more: seq<Keyed<K, W>>)
    requires Keeps(other) && Keeps(step) && Partly(step, table, w, after)
    requires forall key :: MakesUp(other, step, Own(g, key), Own(w, key))
    ensures TouchAll(step, TouchAll(other, after, g), w + more) == TouchAll(step, TouchAll(other, table, g), w + more)
  {
    var a, b := TouchAll(step, TouchAll(other, after, g), w), TouchAll(step, TouchAll(other, table, g), w);
    forall key ensures Lookup(a, key) == Lookup(b, key) {
      RowMakesUp(other, step, table, after, g, w, key);
    }
    SameRows(a, b);
    TouchAppend(step, TouchAll(other, after, g), w, more);
    TouchAppend(step, TouchAll(other, table, g), w, more);
  }

  lemma RowMakesUp<K(!new), V(!new), G(!new), W(!new)>(
      other: (Option<V>, G) -> Option<V>, step: (Option<V>, W) -> Option<V>, table: map<K, V>, after: map<K, V>,
      g: seq<Keyed<K, G>>, w: seq<Keyed<K, W>>, key: K)
    requires Keeps(other) && Keeps(step) && RowPartly(step, table, w, after, key)
      && MakesUp(other, step, Own(g, key), Own(w, key))
    ensures Lookup(TouchAll(step, TouchAll(other, after, g), w), key)
      == Lookup(TouchAll(step, TouchAll(other, table, g), w), key)
  {
    RowAfter(step, TouchAll(other, after, g), w, key);
    RowAfter(step, TouchAll(other, table, g), w, key);
    RowAfter(other, after, g, key);
    RowAfter(other, table, g, key);
    var own := Own(w, key);
    var n :| 0 <= n <= |own| && Lookup(after, key) == Fold(step, Lookup(table, key), own[..n]);
    assert MadeUp(other, step, Lookup(table, key), Own(g, key), own, n);
  }

  /** The writes of the lines of a file, each line giving its own. */
  function WritesOf<L, K, W>(per: L -> seq<Keyed<K, W>>, lines: seq<L>): seq<Keyed<K, W>> {
    if lines == [] then [] else WritesOf(per, lines[..|lines| - 1]) + per(lines[|lines| - 1])
  }

  lemma {:induction false} WritesAppend<L, K, W>(per: L -> seq<Keyed<K, W>>, a: seq<L>, b: seq<L>)
    ensures WritesOf(per, a + b) == WritesOf(per, a) + WritesOf(per, b)
  {
    if b == [] {
      assert a + b == a;
    } else {
      assert (a + b)[..|a + b| - 1] == a + b[..|b| - 1];
      WritesAppend(per, a, b[..|b| - 1]);
    }
  }

  lemma OneLineWrites<L, K, W>(per: L -> seq<Keyed<K, W>>, line: L)
    ensures WritesOf(per, [line]) == per(line)
  {
    assert [line][..0] == [];
  }

  lemma TouchOne<K, V, W>(step: (Option<V>, W) -> Option<V>, table: map<K, V>, w: Keyed<K, W>)
    ensures TouchAll(step, table, [w]) == Touch(step, table, w)
  {
    assert [w][..0] == [];
  }

  lemma TouchNext<K, V, W>(step: (Option<V>, W) -> Option<V>, table: map<K, V>, ws: seq<Keyed<K, W>>, i: nat)
    requires i < |ws|
    ensures TouchAll(step, table, ws[..i + 1]) == Touch(step, TouchAll(step, table, ws[..i]), ws[i])
  {
    assert ws[..i + 1][..i] == ws[..i];
  }
}
