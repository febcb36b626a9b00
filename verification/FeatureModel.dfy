/** Market events, feature definitions and feature vectors (`dto.py`, `definitions.py`). */
module FeatureModel {
  import opened Sequences
  import opened Sorting

  /** The canonical text of an entity's keys: one stream of events per scope. */
  type Scope = string

  /**
    * Of the metadata, `entities` holds the values of entity keys other than the symbol, and `joins`
    * the numeric auxiliary fields by alias and field.
    */
  datatype Event = Event(
    scope: Scope,
    symbol: string,
    eventTs: int,
    availableTs: int,
    price: real,
    size: real,
    entities: map<string, string>,
    joins: map<(string, string), real>)

  datatype Aggregator = Sma | Ema | Max | Min

  type nonneg = r: real | 0.0 <= r

  /** The eleven node kinds, with the parameters each one reads. */
  datatype Kind =
    | Price
    | Return
    | Rolling(window: pos, aggregator: Aggregator)
    | Constant(value: real)
    | Lag(source: string, periods: pos)
    | ZScore(source: string, window: pos)
    | Volatility(source: string, window: pos)
    | MetadataJoin(alias: string, field: string)
    | Difference(left: string, right: string)
    | Ratio(numerator: string, denominator: string, epsilon: nonneg)
    | Clip(source: string, low: Option<real>, high: Option<real>)

  datatype Node = Node(name: string, output: string, dependencies: seq<string>, kind: Kind)

  datatype FeatureSet = FeatureSet(
    name: string,
    version: string,
    windows: seq<pos>,
    nodes: seq<Node>,
    tolerances: map<string, real>)

  datatype Vector = Vector(
    scope: Scope,
    symbol: string,
    ts: int,
    availableTs: int,
    sourceCutoffTs: int,
    values: map<string, real>,
    setName: string,
    setVersion: string,
    lineage: string)

  datatype RawNumerics = RawNumerics(ln: real -> real, sqrt: real -> real)

  /** `math.log` and `math.sqrt`; of either only that roots of positives are positive is known. */
  type Numerics = n: RawNumerics | forall v :: 0.0 < v ==> 0.0 < n.sqrt(v)
    witness RawNumerics(x => x, x => x)

  /** A dictionary key whose first part is the scope. */
  datatype Key<+T> = Key(scope: Scope, item: T)

  /** The events of one scope, in order. */
  function Only(scope: Scope, events: seq<Event>): (r: seq<Event>) {
    Filter(events, (e: Event) => e.scope == scope)
  }

  /** The order of a scope's replay: available time, then event time. */
  predicate EventLe(a: Event, b: Event) {
    a.availableTs < b.availableTs || (a.availableTs == b.availableTs && a.eventTs <= b.eventTs)
  }

  /** Python's order of strings. */
  predicate StringLe(a: string, b: string) {
    a == [] || (b != [] && (a[0] < b[0] || (a[0] == b[0] && StringLe(a[1..], b[1..]))))
  }

  /** The order of a whole batch: symbol, available time, event time. */
  predicate SymbolEventLe(a: Event, b: Event) {
    if a.symbol == b.symbol then EventLe(a, b) else StringLe(a.symbol, b.symbol)
  }

  lemma {:induction false} StringLeTotal(a: string, b: string)
    ensures StringLe(a, b) || StringLe(b, a)
    ensures StringLe(a, b) && StringLe(b, a) ==> a == b
  {
    if a != [] && b != [] && a[0] == b[0] {
      StringLeTotal(a[1..], b[1..]);
      assert a == [a[0]] + a[1..] && b == [b[0]] + b[1..];
    }
  }

  lemma {:induction false} StringLeTransitive(a: string, b: string, c: string)
    requires StringLe(a, b) && StringLe(b, c)
    ensures StringLe(a, c)
  {
    if a != [] && b != [] && c != [] && a[0] == b[0] == c[0] {
      StringLeTransitive(a[1..], b[1..], c[1..]);
    }
  }

  /** The two texts part at `i`, where the first is the smaller one. */
  predicate PartsAt(a: string, b: string, i: int) {
    0 <= i < |a| && i < |b| && a[..i] == b[..i] && a[i] < b[i]
  }

  lemma PartsNext(a: string, b: string, i: int)
    requires a != [] && b != []
    ensures a[0] == b[0] ==> (PartsAt(a, b, i + 1) <==> PartsAt(a[1..], b[1..], i)) && !PartsAt(a, b, 0)
    ensures a[0] != b[0] && PartsAt(a, b, i) ==> i == 0
  {
    if 0 <= i < |a| - 1 && i < |b| - 1 {
      assert a[..i + 1] == [a[0]] + a[1..][..i] && b[..i + 1] == [b[0]] + b[1..][..i];
      assert a[..i + 1][1..] == a[1..][..i] && b[..i + 1][1..] == b[1..][..i];
    }
    assert PartsAt(a, b, i) && i > 0 ==> a[..i][0] == b[..i][0];
  }

  /** A prefix, or smaller where the two part. */
  lemma {:induction false} StringLeIs(a: string, b: string)
    ensures StringLe(a, b) <==> (|a| <= |b| && a == b[..|a|]) || exists i :: PartsAt(a, b, i)
  {
    if a != [] && b != [] {
      StringLeIs(a[1..], b[1..]);
      PrefixNext(a, b);
      if a[0] == b[0] {
        if i :| PartsAt(a, b, i) {
          PartsNext(a, b, i - 1);
        }
        if i :| PartsAt(a[1..], b[1..], i) {
          PartsNext(a, b, i);
        }
      } else {
        assert a[0] < b[0] ==> PartsAt(a, b, 0);
        forall i | PartsAt(a, b, i) ensures a[0] < b[0] {
          PartsNext(a, b, i);
        }
      }
    }
  }

  lemma PrefixNext(a: string, b: string)
    requires a != [] && b != []
    ensures |a| <= |b| && a == b[..|a|] <==> a[0] == b[0] && |a[1..]| <= |b[1..]| && a[1..] == b[1..][..|a| - 1]
  {
    assert a == [a[0]] + a[1..] && b == [b[0]] + b[1..];
    assert |a| <= |b| ==> b[..|a|] == [b[0]] + b[1..][..|a| - 1];
  }

  lemma StringOrder()
    ensures TotalPreorder(StringLe)
  {
    forall a, b ensures StringLe(a, b) || StringLe(b, a) {
      StringLeTotal(a, b);
    }
    forall a, b, c | StringLe(a, b) && StringLe(b, c) ensures StringLe(a, c) {
      StringLeTransitive(a, b, c);
    }
  }

  lemma EventOrder()
    ensures TotalPreorder(EventLe)
  {
  }

  lemma SymbolEventOrder()
    ensures TotalPreorder(SymbolEventLe)
  {
    forall a, b ensures SymbolEventLe(a, b) || SymbolEventLe(b, a) {
      StringLeTotal(a.symbol, b.symbol);
    }
    forall a, b, c | SymbolEventLe(a, b) && SymbolEventLe(b, c) ensures SymbolEventLe(a, c) {
      StringLeTotal(a.symbol, b.symbol);
      StringLeTotal(b.symbol, c.symbol);
      if a.symbol != b.symbol && b.symbol != c.symbol {
        StringLeTransitive(a.symbol, b.symbol, c.symbol);
      }
    }
  }
}
