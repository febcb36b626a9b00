/** The pagers of the historical backfill, against a server that holds a fixed list (`backfill.py`). */
module Backfill {
  import opened Sequences

  datatype Trade = Trade(id: int, time: int)

  datatype Bar = Bar(open: int, close: int)

  /** Identifiers increase and times never decrease. */
  ghost predicate TradesInOrder(server: seq<Trade>) {
    forall i, j :: 0 <= i < j < |server| ==> server[i].id < server[j].id && server[i].time <= server[j].time
  }

  /** Each bar closes before the next one opens. */
  ghost predicate BarsInOrder(server: seq<Bar>) {
    && (forall i :: 0 <= i < |server| ==> server[i].open <= server[i].close)
    && (forall i, j :: 0 <= i < j < |server| ==> server[i].close < server[j].open)
  }

  function Take<T>(s: seq<T>, n: nat): (r: seq<T>)
    ensures |r| <= n
  {
    if |s| <= n then s else s[..n]
  }

  function TradesFrom(id: int): Trade -> bool {
    (t: Trade) => id <= t.id
  }

  function TradesBetween(start: int, end: int): Trade -> bool {
    (t: Trade) => start <= t.time <= end
  }

  function TradesBefore(start: int, end: int): Trade -> bool {
    (t: Trade) => start <= t.time < end
  }

  function BarsBetween(start: int, end: int): Bar -> bool {
    (b: Bar) => start <= b.open <= end
  }

  function BarsBefore(start: int, end: int): Bar -> bool {
    (b: Bar) => start <= b.open < end
  }

  /** How many elements come before the first that passes. */
  function IndexOf<T>(s: seq<T>, p: T -> bool): (n: nat)
    ensures n <= |s|
  {
    if s == [] || p(s[0]) then 0 else 1 + IndexOf(s[1..], p)
  }

  lemma {:induction false} IndexOfSplits<T>(s: seq<T>, p: T -> bool)
    ensures forall i :: 0 <= i < IndexOf(s, p) ==> !p(s[i])
    ensures IndexOf(s, p) < |s| ==> p(s[IndexOf(s, p)])
  {
    if s != [] && !p(s[0]) {
      IndexOfSplits(s[1..], p);
    }
  }

  lemma {:induction false} FilterRange<T>(s: seq<T>, p: T -> bool, i: nat, j: nat)
    requires i <= j <= |s| && forall k :: 0 <= k < |s| ==> (p(s[k]) <==> i <= k < j)
    ensures Filter(s, p) == s[i..j]
  {
    if s == [] {
    } else if i == j {
      FilterNone(s, p);
    } else if i == 0 {
      FilterRange(s[1..], p, 0, j - 1);
      TakeCons(s, j);
    } else {
      FilterRange(s[1..], p, i - 1, j - 1);
      SliceTail(s, i, j);
    }
  }

  /** Where the trades at or after a time begin. */
  function Since(server: seq<Trade>, time: int): (n: nat)
    ensures n <= |server|
  {
    IndexOf(server, TradesNotBefore(time))
  }

  function TradesNotBefore(time: int): Trade -> bool {
    (t: Trade) => time <= t.time
  }

  lemma SinceSplits(server: seq<Trade>, time: int)
    requires TradesInOrder(server)
    ensures forall i :: 0 <= i < |server| ==> (time <= server[i].time <==> Since(server, time) <= i)
  {
    IndexOfSplits(server, TradesNotBefore(time));
  }

  lemma SinceMonotone(server: seq<Trade>, a: int, b: int)
    requires TradesInOrder(server) && a <= b
    ensures Since(server, a) <= Since(server, b)
  {
    SinceSplits(server, a);
    SinceSplits(server, b);
    if Since(server, b) < |server| {
      assert a <= server[Since(server, b)].time;
    }
  }

  lemma TradeRanges(server: seq<Trade>, start: int, end: int)
    requires TradesInOrder(server)
    ensures start < end ==> Since(server, start) <= Since(server, end) <= Since(server, end + 1)
    ensures start <= end ==> Since(server, start) <= Since(server, end + 1)
    ensures start <= end
      ==> Filter(server, TradesBetween(start, end)) == server[Since(server, start)..Since(server, end + 1)]
    ensures start < end ==> Filter(server, TradesBefore(start, end)) == server[Since(server, start)..Since(server, end)]
    ensures end < start ==> Filter(server, TradesBetween(start, end)) == []
    ensures end <= start ==> Filter(server, TradesBefore(start, end)) == []
  {
    SinceSplits(server, start);
    SinceSplits(server, end);
    SinceSplits(server, end + 1);
    if start <= end {
      SinceMonotone(server, start, end + 1);
      FilterRange(server, TradesBetween(start, end), Since(server, start), Since(server, end + 1));
    } else {
      FilterNone(server, TradesBetween(start, end));
    }
    if start < end {
      SinceMonotone(server, start, end);
      SinceMonotone(server, end, end + 1);
      FilterRange(server, TradesBefore(start, end), Since(server, start), Since(server, end));
    } else {
      FilterNone(server, TradesBefore(start, end));
    }
  }

  lemma FromId(server: seq<Trade>, p: nat)
    requires TradesInOrder(server) && 0 < p <= |server|
    ensures Filter(server, TradesFrom(server[p - 1].id + 1)) == server[p..]
  {
    FilterRange(server, TradesFrom(server[p - 1].id + 1), p, |server|);
  }

  predicate InTime(batch: seq<Trade>) {
    forall i, j :: 0 <= i < j < |batch| ==> batch[i].time <= batch[j].time
  }

  predicate Stops(batch: seq<Trade>, start: int, end: int) {
    exists i :: 0 <= i < |batch| && start <= batch[i].time && end <= batch[i].time
  }

  /** The rows of a page that count; `stop` when one of them is at or after the end. */
  method KeepRows(batch: seq<Trade>, start: int, end: int) returns (kept: seq<Trade>, stop: bool)
    requires InTime(batch)
    ensures kept == Filter(batch, TradesBefore(start, end))
    ensures stop <==> Stops(batch, start, end)
  {
    kept, stop := [], false;
    for i := 0 to |batch|
      invariant kept == Filter(batch[..i], TradesBefore(start, end)) && !stop
      invariant forall j :: 0 <= j < i ==> batch[j].time < start || batch[j].time < end
    {
      assert batch[..i + 1] == batch[..i] + [batch[i]];
      FilterAppend(batch[..i], [batch[i]], TradesBefore(start, end));
      FilterOne(batch[i], TradesBefore(start, end));
      if batch[i].time < start {
        continue;
      }
      if end <= batch[i].time {
        stop := true;
        assert batch == batch[..i] + batch[i..];
        FilterAppend(batch[..i], batch[i..], TradesBefore(start, end));
        FilterNone(batch[i..], TradesBefore(start, end));
        return;
      }
      kept := kept + [batch[i]];
    }
    TakeAll(batch);
  }

  /** The rows kept of a page are those before the end; the page asks to stop when it goes beyond. */
  lemma PageKept(server: seq<Trade>, start: int, end: int, p: nat, q: nat)
    requires TradesInOrder(server) && start <= end
    requires Since(server, start) <= p <= q <= |server| && p <= Since(server, end)
    ensures Filter(server[p..q], TradesBefore(start, end))
      == server[p..if q <= Since(server, end) then q else Since(server, end)]
    ensures Stops(server[p..q], start, end) <==> Since(server, end) < q
  {
    var mid := Since(server, end);
    SinceSplits(server, start);
    SinceSplits(server, end);
    var batch := server[p..q];
    if q <= mid {
      FilterAll(batch, TradesBefore(start, end));
    } else {
      FilterRange(batch, TradesBefore(start, end), 0, mid - p);
      assert batch[0..mid - p] == server[p..mid];
      assert end <= batch[mid - p].time && start <= batch[mid - p].time;
    }
  }

  /** The first page is of the time range, a later one of everything from an identifier on. */
  function TradePage(server: seq<Trade>, fromId: Option<int>, start: int, end: int, limit: pos): seq<Trade> {
    Take(Filter(server, if fromId.Some? then TradesFrom(fromId.value) else TradesBetween(start, end)), limit)
  }

  /** The rows of a page, when those before the p-th have been read. */
  lemma PageRows(server: seq<Trade>, fromId: Option<int>, start: int, end: int, limit: pos, p: nat)
    requires TradesInOrder(server) && start <= end && Since(server, start) <= p <= |server|
    requires fromId.None? ==> p == Since(server, start)
    requires fromId.Some? ==> 0 < p && fromId.value == server[p - 1].id + 1
    ensures var batch := TradePage(server, fromId, start, end, limit);
            && p + |batch| <= |server| && batch == server[p..p + |batch|]
            && (|batch| < limit ==> Since(server, end) <= p + |batch|)
  {
    TradeRanges(server, start, end);
    if fromId.Some? {
      FromId(server, p);
    }
    SinceSplits(server, end + 1);
    SinceSplits(server, end);
  }

  /** Where the pager stands when the trades before the p-th have been read. */
  ghost predicate ReadTo(server: seq<Trade>, fromId: Option<int>, start: int, end: int, p: nat, out: seq<Trade>) {
    && Since(server, start) <= p <= |server|
    && (start <= end ==> p <= Since(server, end) && out == server[Since(server, start)..p])
    && (if fromId.None? then p == Since(server, start) && out == []
        else start <= end && 0 < p && fromId.value == server[p - 1].id + 1)
  }

  lemma NothingRead(server: seq<Trade>, start: int, end: int)
    requires TradesInOrder(server)
    ensures ReadTo(server, None, start, end, Since(server, start), [])
  {
    if start <= end {
      SinceMonotone(server, start, end);
    }
  }

  lemma EmptyPage(server: seq<Trade>, fromId: Option<int>, start: int, end: int, limit: pos, p: nat, out: seq<Trade>)
    requires TradesInOrder(server) && ReadTo(server, fromId, start, end, p, out)
    requires TradePage(server, fromId, start, end, limit) == []
    ensures out == Filter(server, TradesBefore(start, end))
  {
    TradeRanges(server, start, end);
    if start <= end {
      PageRows(server, fromId, start, end, limit, p);
    }
  }

  lemma PageBegun(server: seq<Trade>, fromId: Option<int>, start: int, end: int, limit: pos, p: nat, out: seq<Trade>)
    requires TradesInOrder(server) && ReadTo(server, fromId, start, end, p, out)
    requires TradePage(server, fromId, start, end, limit) != []
    ensures start <= end
  {
    TradeRanges(server, start, end);
  }

  /** A page of the trades from the p-th up to the q-th, and what follows from where it ends. */
  ghost predicate PageAt(server: seq<Trade>, start: int, end: int, limit: pos, p: nat, q: nat, batch: seq<Trade>) {
    && start <= end && p < q <= |server| && batch == server[p..q] && InTime(batch)
    && (Stops(batch, start, end) <==> Since(server, end) < q)
    && (q - p < limit ==> Since(server, end) <= q)
  }

  lemma PageFacts(server: seq<Trade>, fromId: Option<int>, start: int, end: int, limit: pos, p: nat, q: nat,
                  out: seq<Trade>)
    requires TradesInOrder(server) && ReadTo(server, fromId, start, end, p, out)
    requires TradePage(server, fromId, start, end, limit) != []
      && q == p + |TradePage(server, fromId, start, end, limit)|
    ensures PageAt(server, start, end, limit, p, q, TradePage(server, fromId, start, end, limit))
  {
    PageBegun(server, fromId, start, end, limit, p, out);
    PageRows(server, fromId, start, end, limit, p);
    TimesInOrder(server, p, q);
    PageKept(server, start, end, p, q);
  }

  /** A page that reaches the end gives what is still missing. */
  lemma PageEnds(server: seq<Trade>, fromId: Option<int>, start: int, end: int, limit: pos, p: nat, q: nat,
                 batch: seq<Trade>, out: seq<Trade>)
    requires TradesInOrder(server) && ReadTo(server, fromId, start, end, p, out)
      && PageAt(server, start, end, limit, p, q, batch)
    requires Stops(batch, start, end) || q - p < limit
    ensures out + Filter(batch, TradesBefore(start, end)) == Filter(server, TradesBefore(start, end))
  {
    TradeRanges(server, start, end);
    PageKept(server, start, end, p, q);
    Adjacent(server, Since(server, start), p, Since(server, end));
    if start == end {
      assert Since(server, start) == Since(server, end);
    }
  }

  /** A full page before the end is kept as it is. */
  lemma PageGoesOn(server: seq<Trade>, fromId: Option<int>, start: int, end: int, limit: pos, p: nat, q: nat,
                   batch: seq<Trade>, out: seq<Trade>)
    requires TradesInOrder(server) && ReadTo(server, fromId, start, end, p, out)
      && PageAt(server, start, end, limit, p, q, batch)
    requires !Stops(batch, start, end)
    ensures ReadTo(server, Some(batch[q - p - 1].id + 1), start, end, q, out + Filter(batch, TradesBefore(start, end)))
  {
    PageKept(server, start, end, p, q);
    Adjacent(server, Since(server, start), p, q);
  }

  lemma Adjacent<T>(s: seq<T>, i: nat, j: nat, k: nat)
    requires i <= j <= k <= |s|
    ensures s[i..j] + s[j..k] == s[i..k]
  {
  }

  lemma {:induction false} TradesAscend(server: seq<Trade>, p: Trade -> bool)
    requires TradesInOrder(server)
    ensures var out := Filter(server, p); forall i, j :: 0 <= i < j < |out| ==> out[i].id < out[j].id
  {
    if server != [] {
      TradesAscend(server[1..], p);
      var rest := Filter(server[1..], p);
      forall j | 0 <= j < |rest| ensures server[0].id < rest[j].id {
        FilterMembers(server[1..], p, rest[j]);
        var k :| 0 <= k < |server| - 1 && server[1..][k] == rest[j];
        assert server[k + 1] == rest[j];
      }
    }
  }

  /** Every trade of the half-open range comes back once and in order, and nothing else. */
  method FetchTrades(server: seq<Trade>, start: int, end: int, limit: pos) returns (out: seq<Trade>)
    requires TradesInOrder(server)
    ensures out == Filter(server, TradesBefore(start, end))
    ensures forall t :: t in out <==> t in server && start <= t.time < end
    ensures forall i, j :: 0 <= i < j < |out| ==> out[i].id < out[j].id
  {
    FilterKeeps(server, TradesBefore(start, end));
    TradesAscend(server, TradesBefore(start, end));
    out := [];
    ghost var p := Since(server, start);
    NothingRead(server, start, end);
    var nextFromId: Option<int> := None;
    while true
      invariant ReadTo(server, nextFromId, start, end, p, out)
      decreases |server| - p
    {
      var batch := TradePage(server, nextFromId, start, end, limit);
      if batch == [] {
        EmptyPage(server, nextFromId, start, end, limit, p, out);
        break;
      }
      ghost var q := p + |batch|;
      PageFacts(server, nextFromId, start, end, limit, p, q, out);
      var kept, stop := KeepRows(batch, start, end);
      if stop || |batch| < limit {
        PageEnds(server, nextFromId, start, end, limit, p, q, batch, out);
        out := out + kept;
        break;
      }
      PageGoesOn(server, nextFromId, start, end, limit, p, q, batch, out);
      out := out + kept;
      nextFromId := Some(batch[|batch| - 1].id + 1);
      p := q;
    }
  }

  lemma TimesInOrder(server: seq<Trade>, p: nat, q: nat)
    requires TradesInOrder(server) && p <= q <= |server|
    ensures InTime(server[p..q])
  {
  }

  /** `n % limit`. */
  function Remainder(n: nat, limit: pos): (r: nat)
    ensures r < limit
  {
    if n < limit then n else Remainder(n - limit, limit)
  }

  /** Whether the last full page ends right where the bar at `end` opens, so that it is never asked for. */
  predicate StopsShort(server: seq<Bar>, start: int, end: int, limit: pos) {
    var bars := Filter(server, BarsBefore(start, end));
    bars != [] && Remainder(|bars|, limit) == 0 && end <= bars[|bars| - 1].close + 1
  }

  function OpenAt(end: int): Bar -> bool {
    (b: Bar) => b.open == end
  }

  function Opening(server: seq<Bar>, time: int): (n: nat)
    ensures n <= |server|
  {
    IndexOf(server, BarsNotBefore(time))
  }

  function BarsNotBefore(time: int): Bar -> bool {
    (b: Bar) => time <= b.open
  }

  lemma OpeningSplits(server: seq<Bar>, time: int)
    requires BarsInOrder(server)
    ensures forall i :: 0 <= i < |server| ==> (time <= server[i].open <==> Opening(server, time) <= i)
  {
    IndexOfSplits(server, BarsNotBefore(time));
  }

  lemma OpeningMonotone(server: seq<Bar>, a: int, b: int)
    requires BarsInOrder(server) && a <= b
    ensures Opening(server, a) <= Opening(server, b)
  {
    OpeningSplits(server, a);
    OpeningSplits(server, b);
    if Opening(server, b) < |server| {
      assert a <= server[Opening(server, b)].open;
    }
  }

  lemma BarRanges(server: seq<Bar>, start: int, end: int)
    requires BarsInOrder(server) && start < end
    ensures Opening(server, start) <= Opening(server, end) <= Opening(server, end + 1) <= Opening(server, end) + 1
    ensures Filter(server, BarsBefore(start, end)) == server[Opening(server, start)..Opening(server, end)]
    ensures Filter(server, OpenAt(end)) == server[Opening(server, end)..Opening(server, end + 1)]
  {
    OpeningSplits(server, start);
    OpeningSplits(server, end);
    OpeningSplits(server, end + 1);
    OpeningMonotone(server, start, end);
    OpeningMonotone(server, end, end + 1);
    if Opening(server, end) + 1 < |server| {
      assert server[Opening(server, end)].open < server[Opening(server, end) + 1].open;
    }
    FilterRange(server, BarsBefore(start, end), Opening(server, start), Opening(server, end));
    FilterRange(server, OpenAt(end), Opening(server, end), Opening(server, end + 1));
  }

  /** A page asked for from after a bar begins with the next one. */
  lemma BarPage(server: seq<Bar>, start: int, next: int, end: int, p: nat)
    requires BarsInOrder(server) && start <= next < end && p <= |server|
    requires (next == start && p == Opening(server, start)) || (0 < p && next == server[p - 1].close + 1)
    ensures p <= Opening(server, end + 1)
    ensures Filter(server, BarsBetween(next, end)) == server[p..Opening(server, end + 1)]
  {
    BarsOfPage(server, start, next, end, p);
    FilterRange(server, BarsBetween(next, end), p, Opening(server, end + 1));
  }

  lemma BarsOfPage(server: seq<Bar>, start: int, next: int, end: int, p: nat)
    requires BarsInOrder(server) && start <= next < end && p <= |server|
    requires (next == start && p == Opening(server, start)) || (0 < p && next == server[p - 1].close + 1)
    ensures p <= Opening(server, end + 1)
    ensures forall i :: 0 <= i < |server| ==> (BarsBetween(next, end)(server[i]) <==> p <= i < Opening(server, end + 1))
  {
    OpeningSplits(server, start);
    OpeningSplits(server, end + 1);
    forall i | 0 <= i < |server| ensures next <= server[i].open <==> p <= i {
      if 0 < p && next == server[p - 1].close + 1 {
        assert i < p - 1 ==> server[i].close < server[p - 1].open;
      }
    }
  }

  /** Where the pager stands when the bars before the p-th have been read, all pages so far being full. */
  ghost predicate ReadBars(server: seq<Bar>, start: int, end: int, limit: pos, next: int, p: nat, out: seq<Bar>) {
    && start <= next && Opening(server, start) <= p <= |server|
    && out == server[Opening(server, start)..p] && Remainder(|out|, limit) == 0
    && (if out == [] then next == start
        else
          && start < end && next == server[p - 1].close + 1 && server[p - 1].open <= end
          && limit <= |out| && (limit < |out| ==> server[p - limit - 1].close + 1 < end))
  }

  lemma {:induction false} Leftover(n: nat, limit: pos, k: nat)
    requires Remainder(n, limit) == 0 && k < limit
    ensures Remainder(n + k, limit) == k
  {
    if limit <= n {
      Leftover(n - limit, limit, k);
    }
  }

  /** The bars that come back: all that open in the range, and the one at its end unless the pages stop short of it. */
  function BarsFetched(server: seq<Bar>, start: int, end: int, limit: pos): seq<Bar> {
    if end <= start then []
    else
      Filter(server, BarsBefore(start, end)) + if StopsShort(server, start, end, limit) then []
        else Filter(server, OpenAt(end))
  }

  /** The end is exclusive exactly when no bar opens there or the pages stop short of it. */
  lemma EndExclusiveIff(server: seq<Bar>, start: int, end: int, limit: pos)
    ensures BarsFetched(server, start, end, limit) == Filter(server, BarsBefore(start, end))
      <==> end <= start || Filter(server, OpenAt(end)) == [] || StopsShort(server, start, end, limit)
  {
    var bars, more := Filter(server, BarsBefore(start, end)), Filter(server, OpenAt(end));
    if end <= start {
      FilterNone(server, BarsBefore(start, end));
    } else {
      assert more != [] ==> |bars + more| != |bars|;
      assert bars + [] == bars;
    }
  }

  /** The bars of the half-open range, and those at its end unless the pages stop short of them, in order. */
  ghost predicate BarsReturned(out: seq<Bar>, server: seq<Bar>, start: int, end: int, limit: pos) {
    && (end <= start ==> out == [])
    && (start < end ==>
          forall b :: b in out <==>
            b in server && start <= b.open
            && (b.open < end || (b.open == end && !EndsShort(server, start, end, limit))))
    && forall i, j :: 0 <= i < j < |out| ==> out[i].close < out[j].open
  }

  predicate Multiple(n: nat, limit: pos, pages: nat) {
    n == pages * limit
  }

  /** Full pages hold exactly the bars that open before the end, and the last of them closes right before it. */
  ghost predicate EndsShort(server: seq<Bar>, start: int, end: int, limit: pos) {
    var bars := Filter(server, (b: Bar) => start <= b.open < end);
    bars != [] && (exists pages :: Multiple(|bars|, limit, pages)) && end - 1 <= bars[|bars| - 1].close
  }

  lemma FetchedBars(server: seq<Bar>, start: int, end: int, limit: pos)
    requires BarsInOrder(server)
    ensures BarsReturned(BarsFetched(server, start, end, limit), server, start, end, limit)
  {
    EndsShortIs(server, start, end, limit);
    if start < end {
      var bars, more := Filter(server, BarsBefore(start, end)), Filter(server, OpenAt(end));
      var out := BarsFetched(server, start, end, limit);
      FetchedOrder(server, start, end);
      if StopsShort(server, start, end, limit) {
        assert out == bars;
        BarsAscend(server, BarsBefore(start, end));
      } else {
        assert out == bars + more;
      }
      forall b ensures b in out <==>
        b in server && start <= b.open
        && (b.open < end || (b.open == end && !StopsShort(server, start, end, limit)))
      {
        FilterMembers(server, BarsBefore(start, end), b);
        FilterMembers(server, OpenAt(end), b);
      }
    }
  }

  lemma FetchedOrder(server: seq<Bar>, start: int, end: int)
    requires BarsInOrder(server)
    ensures var out := Filter(server, BarsBefore(start, end)) + Filter(server, OpenAt(end));
            forall i, j :: 0 <= i < j < |out| ==> out[i].close < out[j].open
  {
    var bars, more := Filter(server, BarsBefore(start, end)), Filter(server, OpenAt(end));
    FilterKeeps(server, BarsBefore(start, end));
    FilterKeeps(server, OpenAt(end));
    BarsAscend(server, BarsBefore(start, end));
    BarsAscend(server, OpenAt(end));
    forall i, j | 0 <= i < |bars| && 0 <= j < |more| ensures bars[i].close < more[j].open {
      assert bars[i] in bars && more[j] in more;
      Disjoint(server, bars[i], more[j]);
    }
  }

  lemma EndsShortIs(server: seq<Bar>, start: int, end: int, limit: pos)
    ensures EndsShort(server, start, end, limit) <==> StopsShort(server, start, end, limit)
  {
    FilterSameBy(server, BarsBefore(start, end), (b: Bar) => start <= b.open < end);
    MultipleIs(|Filter(server, BarsBefore(start, end))|, limit);
  }

  lemma MultipleIs(n: nat, limit: pos)
    ensures Remainder(n, limit) == 0 <==> exists pages :: Multiple(n, limit, pages)
  {
    if Remainder(n, limit) == 0 {
      var pages := Pages(n, limit);
    }
    if pages :| Multiple(n, limit, pages) {
      PagesLeaveNothing(pages, limit);
    }
  }

  lemma {:induction false} Pages(n: nat, limit: pos) returns (pages: nat)
    requires Remainder(n, limit) == 0
    ensures Multiple(n, limit, pages)
  {
    if n == 0 {
      pages := 0;
    } else {
      var fewer := Pages(n - limit, limit);
      pages := fewer + 1;
      assert (fewer + 1) * limit == fewer * limit + limit;
    }
  }

  lemma {:induction false} PagesLeaveNothing(pages: nat, limit: pos)
    ensures 0 <= pages * limit && Remainder(pages * limit, limit) == 0
  {
    if pages > 0 {
      PagesLeaveNothing(pages - 1, limit);
      assert pages * limit == (pages - 1) * limit + limit;
    }
  }

  lemma Disjoint(server: seq<Bar>, a: Bar, b: Bar)
    requires BarsInOrder(server) && a in server && b in server && a.open < b.open
    ensures a.close < b.open
  {
    var i :| 0 <= i < |server| && server[i] == a;
    var j :| 0 <= j < |server| && server[j] == b;
    assert j < i ==> server[j].close < server[i].open;
  }

  lemma {:induction false} BarsAscend(server: seq<Bar>, p: Bar -> bool)
    requires BarsInOrder(server)
    ensures var out := Filter(server, p); forall i, j :: 0 <= i < j < |out| ==> out[i].close < out[j].open
  {
    if server != [] {
      BarsAscend(server[1..], p);
      var rest := Filter(server[1..], p);
      forall j | 0 <= j < |rest| ensures server[0].close < rest[j].open {
        FilterMembers(server[1..], p, rest[j]);
        var k :| 0 <= k < |server| - 1 && server[1..][k] == rest[j];
        assert server[k + 1] == rest[j];
      }
    }
  }

  const BARS := [Bar(0, 9), Bar(10, 19)]

  /** Of two bars of ten ticks, asking for the first ten returns both, but only one with pages of one. */
  lemma EndReturned()
    ensures BarsInOrder(BARS)
    ensures BarsFetched(BARS, 0, 10, 2) == BARS && BarsFetched(BARS, 0, 10, 1) == [BARS[0]]
  {
    assert BARS == [BARS[0]] + [BARS[1]];
    FilterAppend([BARS[0]], [BARS[1]], BarsBefore(0, 10));
    FilterAppend([BARS[0]], [BARS[1]], OpenAt(10));
    FilterOne(BARS[0], BarsBefore(0, 10));
    FilterOne(BARS[1], BarsBefore(0, 10));
    FilterOne(BARS[0], OpenAt(10));
    FilterOne(BARS[1], OpenAt(10));
    assert Filter(BARS, BarsBefore(0, 10)) == [BARS[0]] && Filter(BARS, OpenAt(10)) == [BARS[1]];
    assert Remainder(1, 2) == 1 && Remainder(1, 1) == 0;
  }

  lemma BarRows(server: seq<Bar>, start: int, end: int, limit: pos, next: int, p: nat, out: seq<Bar>)
    requires BarsInOrder(server) && ReadBars(server, start, end, limit, next, p, out) && next < end
    ensures var hi := Opening(server, end + 1);
            p <= hi && Take(Filter(server, BarsBetween(next, end)), limit)
              == server[p..if hi < p + limit then hi else p + limit]
  {
    BarPage(server, start, next, end, p);
    TakeRange(server, p, Opening(server, end + 1), limit);
  }

  lemma NextBars(server: seq<Bar>, start: int, end: int, limit: pos, next: int, p: nat, out: seq<Bar>)
    requires BarsInOrder(server) && ReadBars(server, start, end, limit, next, p, out) && next < end
    requires p + limit <= Opening(server, end + 1)
    ensures ReadBars(server, start, end, limit, server[p + limit - 1].close + 1, p + limit, out + server[p..p + limit])
  {
    OpeningSplits(server, start);
    OpeningSplits(server, end + 1);
    Adjacent(server, Opening(server, start), p, p + limit);
    assert Remainder(|out| + limit, limit) == Remainder(|out|, limit);
    assert start <= server[p + limit - 1].open;
  }

  lemma TakeRange<T>(s: seq<T>, i: nat, j: nat, n: nat)
    requires i <= j <= |s|
    ensures Take(s[i..j], n) == s[i..if j < i + n then j else i + n]
  {
  }

  /** A page that is not full is the last one, and the pages did not stop short. */
  lemma LastPage(server: seq<Bar>, start: int, end: int, limit: pos, next: int, p: nat, out: seq<Bar>)
    requires BarsInOrder(server) && ReadBars(server, start, end, limit, next, p, out) && next < end
    requires p <= Opening(server, end + 1) < p + limit
    ensures out + server[p..Opening(server, end + 1)] == BarsFetched(server, start, end, limit)
  {
    BarRanges(server, start, end);
    var low, mid, hi := Opening(server, start), Opening(server, end), Opening(server, end + 1);
    ReadBeforeEnd(server, start, end, limit, next, p, out);
    NotShort(server, start, end, limit, next, p, out);
    Adjacent(server, low, p, hi);
    Adjacent(server, low, mid, hi);
  }

  lemma ReadBeforeEnd(server: seq<Bar>, start: int, end: int, limit: pos, next: int, p: nat, out: seq<Bar>)
    requires BarsInOrder(server) && ReadBars(server, start, end, limit, next, p, out) && next < end
    ensures p <= Opening(server, end)
  {
    OpeningSplits(server, end);
    if out == [] {
      BarRanges(server, start, end);
    }
  }

  lemma NotShort(server: seq<Bar>, start: int, end: int, limit: pos, next: int, p: nat, out: seq<Bar>)
    requires BarsInOrder(server) && ReadBars(server, start, end, limit, next, p, out) && next < end
    requires p <= Opening(server, end) < p + limit
    ensures !StopsShort(server, start, end, limit)
  {
    BarRanges(server, start, end);
    var bars := server[Opening(server, start)..Opening(server, end)];
    Leftover(|out|, limit, Opening(server, end) - p);
    assert |bars| == |out| + (Opening(server, end) - p);
  }

  /** A short page completes the bars. */
  lemma ShortPage(server: seq<Bar>, start: int, end: int, limit: pos, next: int, p: nat, out: seq<Bar>)
    requires BarsInOrder(server) && ReadBars(server, start, end, limit, next, p, out) && next < end
    requires |Take(Filter(server, BarsBetween(next, end)), limit)| < limit
    ensures out + Take(Filter(server, BarsBetween(next, end)), limit) == BarsFetched(server, start, end, limit)
  {
    BarRows(server, start, end, limit, next, p, out);
    LastPage(server, start, end, limit, next, p, out);
  }

  /** After a full page the pager goes on behind its last bar. */
  lemma FullPage(server: seq<Bar>, start: int, end: int, limit: pos, next: int, p: nat, out: seq<Bar>)
    requires BarsInOrder(server) && ReadBars(server, start, end, limit, next, p, out) && next < end
    requires limit <= |Take(Filter(server, BarsBetween(next, end)), limit)|
    ensures var batch := Take(Filter(server, BarsBetween(next, end)), limit);
            p < |server| && ReadBars(server, start, end, limit, batch[|batch| - 1].close + 1, p + limit, out + batch)
  {
    BarRows(server, start, end, limit, next, p, out);
    NextBars(server, start, end, limit, next, p, out);
    assert server[p..p + limit][limit - 1] == server[p + limit - 1];
  }

  /** When the bars read so far reach the end, nothing more is asked for. */
  lemma ReadToEnd(server: seq<Bar>, start: int, end: int, limit: pos, next: int, p: nat, out: seq<Bar>)
    requires BarsInOrder(server) && ReadBars(server, start, end, limit, next, p, out) && end <= next
    ensures out == BarsFetched(server, start, end, limit)
  {
    if start < end {
      BarRanges(server, start, end);
      if server[p - 1].open < end {
        ReadShort(server, start, end, limit, next, p, out);
        assert out + [] == out;
      } else {
        ReadPastEnd(server, start, end, limit, next, p, out);
      }
    }
  }

  lemma ReadShort(server: seq<Bar>, start: int, end: int, limit: pos, next: int, p: nat, out: seq<Bar>)
    requires BarsInOrder(server) && ReadBars(server, start, end, limit, next, p, out) && start < end <= next
    requires server[p - 1].open < end
    ensures p == Opening(server, end) && StopsShort(server, start, end, limit)
  {
    OpeningSplits(server, end);
    if p < |server| {
      assert server[p - 1].close < server[p].open;
    }
    BarRanges(server, start, end);
  }

  lemma ReadPastEnd(server: seq<Bar>, start: int, end: int, limit: pos, next: int, p: nat, out: seq<Bar>)
    requires BarsInOrder(server) && ReadBars(server, start, end, limit, next, p, out) && start < end <= next
    requires end <= server[p - 1].open
    ensures p == Opening(server, end + 1) == Opening(server, end) + 1 && !StopsShort(server, start, end, limit)
    ensures out == server[Opening(server, start)..Opening(server, end)] + server[Opening(server, end)..p]
  {
    OpeningSplits(server, end);
    OpeningSplits(server, end + 1);
    BarRanges(server, start, end);
    var bars := server[Opening(server, start)..Opening(server, end)];
    Leftover(|out| - limit, limit, limit - 1);
    assert |bars| == |out| - limit + (limit - 1);
    if limit == 1 < |out| {
      assert bars[|bars| - 1] == server[p - limit - 1];
    }
  }

  /**
    * Every bar that opens in the half-open range comes back once and in order, and the bar that
    * opens exactly at the end too unless the pages stop short of it.
    */
  method FetchKlines(server: seq<Bar>, start: int, end: int, limit: pos) returns (out: seq<Bar>)
    requires BarsInOrder(server)
    ensures out == BarsFetched(server, start, end, limit)
  {
    out := [];
    var nextStart := start;
    ghost var p := Opening(server, start);
    while nextStart < end
      invariant ReadBars(server, start, end, limit, nextStart, p, out)
      decreases |server| - p
    {
      var batch := Take(Filter(server, BarsBetween(nextStart, end)), limit);
      if |batch| < limit {
        ShortPage(server, start, end, limit, nextStart, p, out);
        if batch == [] {
          assert out + batch == out;
          return;
        }
        out := out + batch;
        return;
      }
      FullPage(server, start, end, limit, nextStart, p, out);
      out := out + batch;
      nextStart := batch[|batch| - 1].close + 1;
      p := p + limit;
    }
    ReadToEnd(server, start, end, limit, nextStart, p, out);
  }
}
