/** What each telemetry event leaves in the tables, field by field (`builder.py`, `telemetry.py`). */
module Rows {
  import opened Sequences
  import opened Nodes
  import opened KeyedTables
  import opened ReadModel

  function Given<T>(o: Option<T>, default: T): T {
    match o
    case Some(v) => v
    case None => default
  }

  /** The trace, or environment, mode and time when there is none. */
  predicate NamesRun(p: Payload, id: string) {
    if p.traceId.Some? && p.traceId.value != "" then id == p.traceId.value
    else
      id == Given(p.env, "unknown") + ":" + Given(p.mode, "unknown") + ":" + Given(p.recordedAt, "unknown")
  }

  predicate RunHead(p: Payload, row: Run) {
    && NamesRun(p, row.runId) && row.traceId == row.runId
    && row.env == Given(p.env, "unknown") && row.mode == Given(p.mode, "unknown")
    && row.updatedAt == Given(p.recordedAt, "None")
  }

  predicate SummarizedRun(p: Payload, before: Option<Run>, row: Run) {
    && RunHead(p, row) && row.result == Given(p.result, "unknown")
    && row.lastSummaryAt == Some(row.updatedAt) && row.summary == Some(p)
    && row.lastHealthAt == (if before.Some? then before.value.lastHealthAt else None)
    && row.health == (if before.Some? then before.value.health else None)
  }

  predicate ReportedRun(p: Payload, before: Option<Run>, row: Run) {
    && RunHead(p, row)
    && row.result == Given(p.result, if before.Some? then before.value.result else "unknown")
    && row.lastHealthAt == Some(row.updatedAt) && row.health == Some(p)
    && row.lastSummaryAt == (if before.Some? then before.value.lastSummaryAt else None)
    && row.summary == (if before.Some? then before.value.summary else None)
  }

  predicate SameRow<K, V(==)>(before: map<K, V>, after: map<K, V>, key: K) {
    (key in before <==> key in after) && (key in before ==> before[key] == after[key])
  }

  ghost predicate OnlyRow<K(!new), V>(before: map<K, V>, after: map<K, V>, key: K) {
    key in after && forall k :: k != key ==> SameRow(before, after, k)
  }

  ghost predicate RunSummarized(p: Payload, before: map<string, Run>, after: map<string, Run>) {
    exists id :: NamesRun(p, id) && OnlyRow(before, after, id) && SummarizedRun(p, Lookup(before, id), after[id])
  }

  ghost predicate RunReported(p: Payload, before: map<string, Run>, after: map<string, Run>) {
    exists id :: NamesRun(p, id) && OnlyRow(before, after, id) && ReportedRun(p, Lookup(before, id), after[id])
  }

  // ---- streams of a summary ----

  predicate IsUpper(text: string, upper: string) {
    && |upper| == |text|
    && forall i :: 0 <= i < |text| ==>
         if 'a' <= text[i] <= 'z' then upper[i] as int == text[i] as int - 32 else upper[i] == text[i]
  }

  /** One of the seven counters of trouble is positive. */
  predicate Troubled(m: Metric) {
    exists key ::
      && key in {"messages_invalid_total", "invalid_timestamp_total", "duplicates_total", "gaps_total",
                 "gap_irreparable_total", "heartbeat_missed_total", "buffer_dropped_total"}
      && key in m.counters && 0 < m.counters[key]
  }

  predicate MeasuredStream(p: Payload, m: Metric, row: Stream) {
    && IsUpper(Given(m.venue, "BINANCE"), row.venue)
    && row.symbol == Given(m.symbol, "UNKNOWN") && row.streamType == Given(m.streamType, "unknown")
    && row.scope == row.venue + ":" + row.symbol + ":" + row.streamType
    && (row.status == Degraded <==> Troubled(m))
    && NamesRun(p, row.runId) && row.updatedAt == Given(p.recordedAt, "None") && row.metrics == OfSummary(m)
  }

  /** The label of a metric's stream. */
  ghost predicate HasLabel(m: Metric, scope: string) {
    exists venue :: IsUpper(Given(m.venue, "BINANCE"), venue)
      && scope == venue + ":" + Given(m.symbol, "UNKNOWN") + ":" + Given(m.streamType, "unknown")
  }

  ghost predicate LastWithLabel(metrics: seq<Metric>, i: int, scope: string) {
    && 0 <= i < |metrics| && HasLabel(metrics[i], scope)
    && forall j :: i < j < |metrics| ==> !HasLabel(metrics[j], scope)
  }

  ghost predicate NoneLabelled(metrics: seq<Metric>, scope: string) {
    forall i :: 0 <= i < |metrics| ==> !HasLabel(metrics[i], scope)
  }

  /** Each label has the row of its last metric, and labels without one are left alone. */
  ghost predicate StreamsMeasured(p: Payload, metrics: seq<Metric>, before: map<string, Stream>,
                                  after: map<string, Stream>) {
    && (forall scope :: NoneLabelled(metrics, scope) ==> SameRow(before, after, scope))
    && forall scope, i :: LastWithLabel(metrics, i, scope) ==>
         scope in after && MeasuredStream(p, metrics[i], after[scope])
  }

  // ---- streams of a health report ----

  /** A known stream is degraded; an unknown one is created if its label has three parts. */
  predicate DegradedStream(p: Payload, scope: string, before: Option<Stream>, after: Option<Stream>) {
    match before
    case Some(row) => after == Some(row.(status := Degraded, updatedAt := Given(p.recordedAt, "None")))
    case None =>
      if multiset(scope)[':'] != 2 then after == None
      else
        && after.Some? &&
        var row := after.value;
        && row.scope == scope == row.venue + ":" + row.symbol + ":" + row.streamType
        && ':' !in row.venue && ':' !in row.symbol && ':' !in row.streamType
        && row.status == Degraded && NamesRun(p, row.runId) && row.updatedAt == Given(p.recordedAt, "None")
        && row.metrics == DegradedByHealth
  }

  ghost predicate StreamsDegraded(p: Payload, before: map<string, Stream>, after: map<string, Stream>) {
    forall scope ::
      if scope in p.streamsDegraded then DegradedStream(p, scope, Lookup(before, scope), Lookup(after, scope))
      else SameRow(before, after, scope)
  }

  // ---- alerts and checkpoints ----

  predicate NewAlert(p: Payload, row: Alert) {
    && row.traceId == p.traceId && row.env == p.env && row.mode == p.mode
    && row.alertType == Given(p.alertType, "unknown")
    && row.severity == Given(p.alertSeverity, Given(p.severity, "warning"))
    && row.observed == Given(p.observed, 0.0) && row.threshold == Given(p.threshold, 0)
    && row.recommendedAction == Given(p.recommendedAction, "")
    && row.createdAt == Given(p.recordedAt, "None") && row.payload == p && row.ack == Open
  }

  ghost predicate AlertInserted(p: Payload, before: map<Payload, Alert>, after: map<Payload, Alert>) {
    if p in before then after == before else OnlyRow(before, after, p) && NewAlert(p, after[p])
  }

  predicate CheckpointRow(p: Payload, row: Checkpoint) {
    && row.streamKey == Given(p.streamKey, "") && row.checkpointPath == Given(p.checkpointPath, "")
    && row.recordedAt == Given(p.recordedAt, "None")
    && row.cursorKind == p.cursorKind && row.cursorValue == p.cursorValue
    && row.cursorSeenEntryCount == Given(p.cursorSeenEntryCount, 0)
  }

  /** Neither the empty key nor the star has a checkpoint. */
  predicate Checkpoints(p: Payload, key: string) {
    key == Given(p.streamKey, "") && key != "" && key != "*"
  }

  ghost predicate CheckpointPut(p: Payload, before: map<string, Checkpoint>, after: map<string, Checkpoint>) {
    var key := Given(p.streamKey, "");
    if !Checkpoints(p, key) then after == before else OnlyRow(before, after, key) && CheckpointRow(p, after[key])
  }

  // ---- the specification says so ----

  lemma RunIdNames(p: Payload)
    ensures forall id :: NamesRun(p, id) <==> id == RunId(p)
  {
  }

  lemma SummaryWrites(m: Model, p: Payload)
    ensures var after := Applied(m, IngestionSummary, [Some(p)]);
            && RunSummarized(p, m.runs, after.runs)
            && StreamsMeasured(p, p.streamMetrics, m.streams, after.streams)
            && after.alerts == m.alerts && after.checkpoints == m.checkpoints
  {
    SummaryLine(m, p);
    RunIdNames(p);
    var after := Applied(m, IngestionSummary, [Some(p)]);
    assert OnlyRow(m.runs, after.runs, RunId(p));
    assert SummarizedRun(p, Lookup(m.runs, RunId(p)), after.runs[RunId(p)]);
    MeasuredTo(p, m.streams, |p.streamMetrics|);
    TakeAll(p.streamMetrics);
    TakeAll(SummaryStreams(Some(p)));
  }

  lemma UpperIs(text: string, upper: string)
    ensures IsUpper(text, upper) <==> upper == Upper(text)
    ensures Upper(Upper(text)) == Upper(text)
  {
  }

  lemma TroubledIs(m: Metric)
    ensures Troubled(m) <==> StreamDegraded(m)
  {
    if StreamDegraded(m) {
      var i :| 0 <= i < |DEGRADED_STREAM_KEYS| && 0 < OrElse(Lookup(m.counters, DEGRADED_STREAM_KEYS[i]), 0);
      var key := DEGRADED_STREAM_KEYS[i];
      assert key in m.counters && 0 < m.counters[key];
    }
    if Troubled(m) {
      var key :| key in {"messages_invalid_total", "invalid_timestamp_total", "duplicates_total", "gaps_total",
                         "gap_irreparable_total", "heartbeat_missed_total", "buffer_dropped_total"}
        && key in m.counters && 0 < m.counters[key];
      CounterListed(key);
      var i :| 0 <= i < |DEGRADED_STREAM_KEYS| && DEGRADED_STREAM_KEYS[i] == key;
    }
  }

  lemma CounterListed(key: string)
    requires key in {"messages_invalid_total", "invalid_timestamp_total", "duplicates_total", "gaps_total",
                     "gap_irreparable_total", "heartbeat_missed_total", "buffer_dropped_total"}
    ensures key in DEGRADED_STREAM_KEYS
  {
    assert DEGRADED_STREAM_KEYS[0] == "messages_invalid_total" && DEGRADED_STREAM_KEYS[1] == "invalid_timestamp_total";
    assert DEGRADED_STREAM_KEYS[2] == "duplicates_total" && DEGRADED_STREAM_KEYS[3] == "gaps_total";
    assert DEGRADED_STREAM_KEYS[4] == "gap_irreparable_total" && DEGRADED_STREAM_KEYS[5] == "heartbeat_missed_total";
    assert DEGRADED_STREAM_KEYS[6] == "buffer_dropped_total";
  }

  lemma RecordIs(p: Payload, m: Metric)
    ensures MeasuredStream(p, m, StreamRecord(p, m))
    ensures forall scope :: HasLabel(m, scope) <==> scope == StreamRecord(p, m).scope
  {
    var text := Given(m.venue, "BINANCE");
    UpperIs(text, Upper(text));
    TroubledIs(m);
    RunIdNames(p);
    forall scope ensures HasLabel(m, scope) <==> scope == StreamRecord(p, m).scope {
      if HasLabel(m, scope) {
        var venue :| IsUpper(text, venue)
          && scope == venue + ":" + Given(m.symbol, "UNKNOWN") + ":" + Given(m.streamType, "unknown");
        UpperIs(text, venue);
      }
    }
  }

  lemma {:induction false} MeasuredTo(p: Payload, before: map<string, Stream>, n: nat)
    requires n <= |p.streamMetrics|
    ensures StreamsMeasured(p, p.streamMetrics[..n], before,
                            TouchAll(SummaryStream, before, SummaryStreams(Some(p))[..n]))
  {
    if n > 0 {
      var k := n - 1;
      MeasuredTo(p, before, k);
      RecordIs(p, p.streamMetrics[k]);
      TouchNext(SummaryStream, before, SummaryStreams(Some(p)), k);
      TakeNext(p.streamMetrics, k);
      MeasuredNext(p, p.streamMetrics[..k], p.streamMetrics[k], before,
                   TouchAll(SummaryStream, before, SummaryStreams(Some(p))[..k]));
    }
  }

  lemma MeasuredNext(p: Payload, metrics: seq<Metric>, m: Metric, before: map<string, Stream>, now: map<string, Stream>)
    requires StreamsMeasured(p, metrics, before, now)
    ensures var record := StreamRecord(p, m); StreamsMeasured(p, metrics + [m], before, now[record.scope := record])
  {
    RecordIs(p, m);
    var record, all := StreamRecord(p, m), metrics + [m];
    var next := now[record.scope := record];
    forall scope | NoneLabelled(all, scope) ensures SameRow(before, next, scope) {
      assert !HasLabel(all[|metrics|], scope);
      forall i | 0 <= i < |metrics| ensures !HasLabel(metrics[i], scope) {
        assert all[i] == metrics[i];
      }
      assert NoneLabelled(metrics, scope);
    }
    forall scope, i | LastWithLabel(all, i, scope) ensures scope in next && MeasuredStream(p, all[i], next[scope]) {
      if i < |metrics| {
        assert !HasLabel(all[|metrics|], scope);
        assert forall j :: i < j < |metrics| ==> all[j] == metrics[j];
        assert LastWithLabel(metrics, i, scope);
      }
    }
  }

  lemma HealthWrites(m: Model, p: Payload)
    ensures var after := Applied(m, IngestionHealth, [Some(p)]);
            && RunReported(p, m.runs, after.runs)
            && StreamsDegraded(p, m.streams, after.streams)
            && after.alerts == m.alerts && after.checkpoints == m.checkpoints
  {
    HealthLine(m, p);
    RunIdNames(p);
    var after := Applied(m, IngestionHealth, [Some(p)]);
    assert OnlyRow(m.runs, after.runs, RunId(p));
    assert ReportedRun(p, Lookup(m.runs, RunId(p)), after.runs[RunId(p)]);
    forall scope
      ensures if scope in p.streamsDegraded
              then DegradedStream(p, scope, Lookup(m.streams, scope), Lookup(after.streams, scope))
              else SameRow(m.streams, after.streams, scope)
    {
      HealthRow(m.streams, p, scope);
    }
  }

  /** A stream is touched once if it is named, and else not at all. */
  lemma HealthRow(before: map<string, Stream>, p: Payload, scope: string)
    ensures var row := Lookup(TouchAll(HealthStream, before, HealthStreams(Some(p))), scope);
            if scope in p.streamsDegraded then DegradedStream(p, scope, Lookup(before, scope), row)
            else row == Lookup(before, scope)
  {
    DistinctLabels(p.streamsDegraded);
    OwnOnce(Distinct(p.streamsDegraded), RunId(p), At(p), scope);
    RowAfter(HealthStream, before, HealthStreams(Some(p)), scope);
    DegradedIs(p, scope, Lookup(before, scope));
    var own := Own(HealthStreams(Some(p)), scope);
    assert own == (if scope in p.streamsDegraded then [Degradation(scope, RunId(p), At(p))] else []);
    assert own != [] ==> own[..0] == [];
  }

  lemma {:induction false} DistinctLabels(labels: seq<string>)
    ensures forall scope :: scope in Distinct(labels) <==> scope in labels
    ensures forall i, j :: 0 <= i < j < |Distinct(labels)| ==> Distinct(labels)[i] != Distinct(labels)[j]
  {
    if labels != [] {
      FrontLast(labels);
      DistinctLabels(labels[..|labels| - 1]);
    }
  }

  function DegradationsOf(labels: seq<string>, runId: string, at: string): (r: seq<Keyed<string, Degradation>>)
    ensures |r| == |labels|
  {
    seq(|labels|, i requires 0 <= i < |labels| => Keyed(labels[i], Degradation(labels[i], runId, at)))
  }

  lemma {:induction false} OwnOnce(labels: seq<string>, runId: string, at: string, scope: string)
    requires forall i, j :: 0 <= i < j < |labels| ==> labels[i] != labels[j]
    ensures Own(DegradationsOf(labels, runId, at), scope)
         == if scope in labels then [Degradation(scope, runId, at)] else []
  {
    if labels != [] {
      var front := labels[..|labels| - 1];
      OwnOnce(front, runId, at, scope);
      FrontLast(labels);
      assert DegradationsOf(labels, runId, at)[..|labels| - 1] == DegradationsOf(front, runId, at);
    }
  }

  lemma {:induction false} SplitCount(text: string)
    ensures |Split(text)| == multiset(text)[':'] + 1
  {
    if text != [] {
      SplitCount(text[1..]);
      assert text == [text[0]] + text[1..];
      assert multiset(text) == multiset{text[0]} + multiset(text[1..]);
    }
  }

  lemma {:induction false} SplitPlain(text: string)
    ensures forall i :: 0 <= i < |Split(text)| ==> ':' !in Split(text)[i]
  {
    if text != [] {
      SplitPlain(text[1..]);
    }
  }

  lemma {:induction false} SplitRejoins(text: string)
    ensures text == Rejoined(Split(text))
  {
    if text != [] {
      var rest := Split(text[1..]);
      SplitRejoins(text[1..]);
      assert text == [text[0]] + text[1..];
      if text[0] == ':' {
        assert ([[]] + rest)[1..] == rest;
      } else {
        assert ([[text[0]] + rest[0]] + rest[1..])[1..] == rest[1..];
        assert |rest| > 1 ==> [text[0]] + rest[0] + ":" + Rejoined(rest[1..])
                              == [text[0]] + (rest[0] + ":" + Rejoined(rest[1..]));
      }
    }
  }

  function Rejoined(parts: seq<string>): string
    requires parts != []
  {
    if |parts| == 1 then parts[0] else parts[0] + ":" + Rejoined(parts[1..])
  }

  lemma ThreeParts(text: string)
    ensures |Split(text)| == 3 <==> multiset(text)[':'] == 2
    ensures var parts := Split(text); |parts| == 3 ==>
      && text == parts[0] + ":" + parts[1] + ":" + parts[2]
      && ':' !in parts[0] && ':' !in parts[1] && ':' !in parts[2]
  {
    SplitCount(text);
    SplitPlain(text);
    SplitRejoins(text);
    if |Split(text)| == 3 {
      RejoinedThree(Split(text));
    }
  }

  lemma RejoinedThree(parts: seq<string>)
    requires |parts| == 3
    ensures Rejoined(parts) == parts[0] + ":" + parts[1] + ":" + parts[2]
  {
    var rest := parts[1..];
    assert rest[1..] == [parts[2]] && Rejoined([parts[2]]) == parts[2];
    assert Rejoined(rest) == parts[1] + ":" + parts[2];
    AppendAssociative(parts[0] + ":", parts[1] + ":", parts[2]);
    AppendAssociative(parts[0] + ":", parts[1], ":");
  }

  lemma DegradedIs(p: Payload, scope: string, before: Option<Stream>)
    ensures DegradedStream(p, scope, before, HealthStream(before, Degradation(scope, RunId(p), At(p))))
  {
    RunIdNames(p);
    ThreeParts(scope);
  }

  lemma AlertWritten(m: Model, p: Payload)
    ensures var after := Applied(m, OperationalAlert, [Some(p)]);
            && AlertInserted(p, m.alerts, after.alerts)
            && after.runs == m.runs && after.streams == m.streams && after.checkpoints == m.checkpoints
  {
    AlertLine(m, p);
  }

  lemma CheckpointWritten(m: Model, p: Payload)
    ensures var after := Applied(m, CheckpointAuditRef, [Some(p)]);
            && CheckpointPut(p, m.checkpoints, after.checkpoints)
            && after.runs == m.runs && after.streams == m.streams && after.alerts == m.alerts
  {
    CheckpointLine(m, p);
  }
}
