/** The tables the control plane reads, and what each telemetry line writes to them (`builder.py`). */
module ReadModel {
  import opened Sequences
  import opened Nodes
  import opened KeyedTables

  datatype Metric = Metric(venue: Option<string>, symbol: Option<string>, streamType: Option<string>,
    counters: map<string, int>)

  /** A telemetry event: every field of it that a handler reads, none of them certain to be there. */
  datatype Payload = Payload(
    traceId: Option<string>,
    env: Option<string>,
    mode: Option<string>,
    result: Option<string>,
    recordedAt: Option<string>,
    streamMetrics: seq<Metric>,
    streamsDegraded: seq<string>,
    alertType: Option<string>,
    alertSeverity: Option<string>,
    severity: Option<string>,
    observed: Option<real>,
    threshold: Option<int>,
    recommendedAction: Option<string>,
    streamKey: Option<string>,
    checkpointPath: Option<string>,
    cursorKind: Option<string>,
    cursorValue: Option<string>,
    cursorSeenEntryCount: Option<int>)

  /** A line of a log; `None` is a blank one. */
  type Line = Option<Payload>

  datatype Run = Run(
    runId: string,
    traceId: string,
    env: string,
    mode: string,
    result: string,
    updatedAt: string,
    lastSummaryAt: Option<string>,
    lastHealthAt: Option<string>,
    summary: Option<Payload>,
    health: Option<Payload>)

  datatype Status = Ok | Degraded

  datatype StreamMetrics = OfSummary(metric: Metric) | DegradedByHealth

  datatype Stream = Stream(
    scope: string,
    venue: string,
    symbol: string,
    streamType: string,
    status: Status,
    runId: string,
    updatedAt: string,
    metrics: StreamMetrics)

  datatype Ack = Open | Acked(at: string, who: string)

  datatype Alert = Alert(
    traceId: Option<string>,
    env: Option<string>,
    mode: Option<string>,
    alertType: string,
    severity: string,
    observed: real,
    threshold: int,
    recommendedAction: string,
    createdAt: string,
    payload: Payload,
    ack: Ack)

  datatype Checkpoint = Checkpoint(
    streamKey: string,
    checkpointPath: string,
    recordedAt: string,
    cursorKind: Option<string>,
    cursorValue: Option<string>,
    cursorSeenEntryCount: int)

  /** An alert's primary key is a digest of its whole payload. */
  datatype Model = Model(
    runs: map<string, Run>,
    streams: map<string, Stream>,
    alerts: map<Payload, Alert>,
    checkpoints: map<string, Checkpoint>)

  function OrElse<T>(o: Option<T>, default: T): T {
    if o.Some? then o.value else default
  }

  /** `str(payload.get("recorded_at"))`. */
  function At(p: Payload): string {
    OrElse(p.recordedAt, "None")
  }

  function RunId(p: Payload): string {
    if p.traceId.Some? && p.traceId.value != "" then p.traceId.value
    else OrElse(p.env, "unknown") + ":" + OrElse(p.mode, "unknown") + ":" + OrElse(p.recordedAt, "unknown")
  }

  function UpperChar(c: char): char {
    if 'a' <= c <= 'z' then c - 'a' + 'A' else c
  }

  function Upper(s: string): string {
    seq(|s|, i requires 0 <= i < |s| => UpperChar(s[i]))
  }

  function ScopeLabel(venue: string, symbol: string, streamType: string): string {
    Upper(venue) + ":" + symbol + ":" + streamType
  }

  const DEGRADED_STREAM_KEYS := [
    "messages_invalid_total",
    "invalid_timestamp_total",
    "duplicates_total",
    "gaps_total",
    "gap_irreparable_total",
    "heartbeat_missed_total",
    "buffer_dropped_total"
  ]

  predicate StreamDegraded(m: Metric) {
    exists i :: 0 <= i < |DEGRADED_STREAM_KEYS| && 0 < OrElse(Lookup(m.counters, DEGRADED_STREAM_KEYS[i]), 0)
  }

  /** `text.split(":")`. */
  function Split(text: string): (r: seq<string>)
    ensures r != []
  {
    if text == [] then [[]]
    else
      var rest := Split(text[1..]);
      if text[0] == ':' then [[]] + rest else [[text[0]] + rest[0]] + rest[1..]
  }

  /** A summary rewrites a run, except for what is known of its health. */
  function SummaryRun(row: Option<Run>, p: Payload): Option<Run> {
    Some(Run(RunId(p), RunId(p), OrElse(p.env, "unknown"), OrElse(p.mode, "unknown"), OrElse(p.result, "unknown"),
             At(p), Some(At(p)), if row.Some? then row.value.lastHealthAt else None,
             Some(p), if row.Some? then row.value.health else None))
  }

  /** A health report rewrites a run, except for its summary, and keeps the result when it names none. */
  function HealthRun(row: Option<Run>, p: Payload): Option<Run> {
    Some(Run(RunId(p), RunId(p), OrElse(p.env, "unknown"), OrElse(p.mode, "unknown"),
             OrElse(p.result, if row.Some? then row.value.result else "unknown"),
             At(p), if row.Some? then row.value.lastSummaryAt else None, Some(At(p)),
             if row.Some? then row.value.summary else None, Some(p)))
  }

  /** A summary rewrites a stream altogether. */
  function SummaryStream(row: Option<Stream>, record: Stream): Option<Stream> {
    Some(record)
  }

  datatype Degradation = Degradation(scope: string, runId: string, at: string)

  /** A health report degrades a known stream, and creates an unknown one if its label has three parts. */
  function HealthStream(row: Option<Stream>, d: Degradation): Option<Stream> {
    if row.Some? then Some(row.value.(status := Degraded, updatedAt := d.at))
    else
      var parts := Split(d.scope);
      if |parts| != 3 then None
      else Some(Stream(d.scope, parts[0], parts[1], parts[2], Degraded, d.runId, d.at, DegradedByHealth))
  }

  /** `INSERT OR IGNORE`. */
  function InsertAlert(row: Option<Alert>, p: Payload): Option<Alert> {
    if row.Some? then row
    else
      Some(Alert(p.traceId, p.env, p.mode, OrElse(p.alertType, "unknown"),
                 OrElse(p.alertSeverity, OrElse(p.severity, "warning")),
                 OrElse(p.observed, 0.0), OrElse(p.threshold, 0), OrElse(p.recommendedAction, ""), At(p), p, Open))
  }

  function PutCheckpoint(row: Option<Checkpoint>, p: Payload): Option<Checkpoint> {
    Some(Checkpoint(OrElse(p.streamKey, ""), OrElse(p.checkpointPath, ""), At(p), p.cursorKind, p.cursorValue,
                    OrElse(p.cursorSeenEntryCount, 0)))
  }

  /** The run written by a summary or a health line. */
  function RunWrites(line: Line): seq<Keyed<string, Payload>> {
    if line.None? then [] else [Keyed(RunId(line.value), line.value)]
  }

  function StreamRecord(p: Payload, m: Metric): Stream {
    var venue, symbol, streamType := Upper(OrElse(m.venue, "BINANCE")), OrElse(m.symbol, "UNKNOWN"),
      OrElse(m.streamType, "unknown");
    Stream(ScopeLabel(venue, symbol, streamType), venue, symbol, streamType,
           if StreamDegraded(m) then Degraded else Ok, RunId(p), At(p), OfSummary(m))
  }

  function SummaryStreams(line: Line): seq<Keyed<string, Stream>> {
    if line.None? then []
    else
      var p := line.value;
      seq(|p.streamMetrics|, i requires 0 <= i < |p.streamMetrics| =>
        var record := StreamRecord(p, p.streamMetrics[i]);
        Keyed(record.scope, record))
  }

  /** Every label once. */
  function Distinct(labels: seq<string>): seq<string> {
    if labels == [] then []
    else
      var rest := Distinct(labels[..|labels| - 1]);
      if labels[|labels| - 1] in rest then rest else rest + [labels[|labels| - 1]]
  }

  function HealthStreams(line: Line): seq<Keyed<string, Degradation>> {
    if line.None? then []
    else
      var p := line.value;
      var labels := Distinct(p.streamsDegraded);
      seq(|labels|, i requires 0 <= i < |labels| => Keyed(labels[i], Degradation(labels[i], RunId(p), At(p))))
  }

  function AlertWrites(line: Line): seq<Keyed<Payload, Payload>> {
    if line.None? then [] else [Keyed(line.value, line.value)]
  }

  function CheckpointWrites(line: Line): seq<Keyed<string, Payload>> {
    if line.None? then []
    else
      var key := OrElse(line.value.streamKey, "");
      if key == "" || key == "*" then [] else [Keyed(key, line.value)]
  }

  /** The logs in the order in which a sync reads them, that of their file names. */
  datatype File = CheckpointAuditRef | IngestionHealth | IngestionSummary | OperationalAlert | RecoveryCommandAudit

  function Rank(f: File): nat {
    match f
    case CheckpointAuditRef => 0
    case IngestionHealth => 1
    case IngestionSummary => 2
    case OperationalAlert => 3
    case RecoveryCommandAudit => 4
  }

  function FileName(f: File): string {
    match f
    case CheckpointAuditRef => "checkpoint_audit_ref.jsonl"
    case IngestionHealth => "ingestion_health.jsonl"
    case IngestionSummary => "ingestion_summary.jsonl"
    case OperationalAlert => "operational_alert.jsonl"
    case RecoveryCommandAudit => "recovery_command_audit.jsonl"
  }

  /** Neither text is the beginning of the other, and the first is smaller where they part. */
  ghost predicate NamedBefore(a: string, b: string) {
    exists i :: 0 <= i < |a| && i < |b| && a[..i] == b[..i] && a[i] < b[i]
  }

  lemma ReadByName(f: File, g: File)
    ensures Rank(f) < Rank(g) <==> NamedBefore(FileName(f), FileName(g))
  {
    if Rank(f) < Rank(g) {
      SmallerName(f, g);
    } else if Rank(g) < Rank(f) {
      SmallerName(g, f);
      NotBoth(FileName(f), FileName(g));
    } else {
      NotBoth(FileName(f), FileName(f));
    }
  }

  lemma SmallerName(f: File, g: File)
    requires Rank(f) < Rank(g)
    ensures NamedBefore(FileName(f), FileName(g))
  {
    var a, b := FileName(f), FileName(g);
    var i := if f == IngestionHealth && g == IngestionSummary then 10 else 0;
    assert a[..i] == b[..i] && a[i] < b[i];
  }

  lemma NotBoth(a: string, b: string)
    ensures NamedBefore(a, b) ==> !NamedBefore(b, a)
  {
    if i :| 0 <= i < |a| && i < |b| && a[..i] == b[..i] && a[i] < b[i] {
      forall j | 0 <= j < |b| && j < |a| && b[..j] == a[..j] ensures j <= i && b[j] >= a[j] {
        SameBefore(a, b, i, j);
        SameBefore(a, b, j, i);
      }
    }
  }

  lemma SameBefore(a: string, b: string, i: nat, j: nat)
    requires i < |a| && i < |b| && j <= |a| && j <= |b| && a[..j] == b[..j]
    ensures i < j ==> a[i] == b[i]
  {
    assert i < j ==> a[..j][i] == b[..j][i];
  }

  /** The model after the lines of one file; nothing is made of the audit of commands. */
  function Applied(m: Model, f: File, lines: seq<Line>): Model {
    match f
    case CheckpointAuditRef =>
      m.(checkpoints := TouchAll(PutCheckpoint, m.checkpoints, WritesOf(CheckpointWrites, lines)))
    case IngestionHealth =>
      m.(runs := TouchAll(HealthRun, m.runs, WritesOf(RunWrites, lines)),
         streams := TouchAll(HealthStream, m.streams, WritesOf(HealthStreams, lines)))
    case IngestionSummary =>
      m.(runs := TouchAll(SummaryRun, m.runs, WritesOf(RunWrites, lines)),
         streams := TouchAll(SummaryStream, m.streams, WritesOf(SummaryStreams, lines)))
    case OperationalAlert =>
      m.(alerts := TouchAll(InsertAlert, m.alerts, WritesOf(AlertWrites, lines)))
    case RecoveryCommandAudit => m
  }

  /** What one line of each file does to the tables. */
  lemma SummaryLine(m: Model, p: Payload)
    ensures Applied(m, IngestionSummary, [Some(p)])
         == m.(runs := m.runs[RunId(p) := SummaryRun(Lookup(m.runs, RunId(p)), p).value],
               streams := TouchAll(SummaryStream, m.streams, SummaryStreams(Some(p))))
  {
    OneLineWrites(RunWrites, Some(p));
    OneLineWrites(SummaryStreams, Some(p));
    TouchOne(SummaryRun, m.runs, Keyed(RunId(p), p));
  }

  lemma HealthLine(m: Model, p: Payload)
    ensures Applied(m, IngestionHealth, [Some(p)])
         == m.(runs := m.runs[RunId(p) := HealthRun(Lookup(m.runs, RunId(p)), p).value],
               streams := TouchAll(HealthStream, m.streams, HealthStreams(Some(p))))
  {
    OneLineWrites(RunWrites, Some(p));
    OneLineWrites(HealthStreams, Some(p));
    TouchOne(HealthRun, m.runs, Keyed(RunId(p), p));
  }

  lemma AlertLine(m: Model, p: Payload)
    ensures Applied(m, OperationalAlert, [Some(p)])
         == if p in m.alerts then m else m.(alerts := m.alerts[p := InsertAlert(None, p).value])
  {
    OneLineWrites(AlertWrites, Some(p));
    TouchOne(InsertAlert, m.alerts, Keyed(p, p));
    assert p in m.alerts ==> m.alerts[p := m.alerts[p]] == m.alerts;
  }

  lemma CheckpointLine(m: Model, p: Payload)
    ensures var key := OrElse(p.streamKey, "");
            Applied(m, CheckpointAuditRef, [Some(p)])
              == if key == "" || key == "*" then m
                 else m.(checkpoints := m.checkpoints[key := PutCheckpoint(None, p).value])
  {
    OneLineWrites(CheckpointWrites, Some(p));
    var key := OrElse(p.streamKey, "");
    if key != "" && key != "*" {
      TouchOne(PutCheckpoint, m.checkpoints, Keyed(key, p));
    }
  }

  lemma BlankLine(m: Model, f: File)
    ensures Applied(m, f, []) == m && Applied(m, f, [None]) == m
  {
    OneLineWrites(RunWrites, None);
    OneLineWrites(SummaryStreams, None);
    OneLineWrites(HealthStreams, None);
    OneLineWrites(AlertWrites, None);
    OneLineWrites(CheckpointWrites, None);
  }

  lemma AppliedAppend(m: Model, f: File, a: seq<Line>, b: seq<Line>)
    ensures Applied(m, f, a + b) == Applied(Applied(m, f, a), f, b)
  {
    match f {
      case CheckpointAuditRef =>
        WritesAppend(CheckpointWrites, a, b);
        TouchAppend(PutCheckpoint, m.checkpoints, WritesOf(CheckpointWrites, a), WritesOf(CheckpointWrites, b));
      case IngestionHealth =>
        WritesAppend(RunWrites, a, b);
        WritesAppend(HealthStreams, a, b);
        TouchAppend(HealthRun, m.runs, WritesOf(RunWrites, a), WritesOf(RunWrites, b));
        TouchAppend(HealthStream, m.streams, WritesOf(HealthStreams, a), WritesOf(HealthStreams, b));
      case IngestionSummary =>
        WritesAppend(RunWrites, a, b);
        WritesAppend(SummaryStreams, a, b);
        TouchAppend(SummaryRun, m.runs, WritesOf(RunWrites, a), WritesOf(RunWrites, b));
        TouchAppend(SummaryStream, m.streams, WritesOf(SummaryStreams, a), WritesOf(SummaryStreams, b));
      case OperationalAlert =>
        WritesAppend(AlertWrites, a, b);
        TouchAppend(InsertAlert, m.alerts, WritesOf(AlertWrites, a), WritesOf(AlertWrites, b));
      case RecoveryCommandAudit =>
    }
  }

  /** What some health reports leave of a run: the last one, with the last result any of them names. */
  lemma {:induction false} HealthRunFold(row: Option<Run>, ws: seq<Payload>)
    requires ws != []
    ensures Fold(HealthRun, row, ws)
      == HealthRun(Some(Known(row).(result := ResultAfter(Known(row).result, ws[..|ws| - 1]))), ws[|ws| - 1])
  {
    var front := ws[..|ws| - 1];
    if front == [] {
      assert Fold(HealthRun, row, ws) == HealthRun(row, ws[0]);
    } else {
      HealthRunFold(row, front);
    }
  }

  /** A run, with defaults in place of what is not there. */
  function Known(row: Option<Run>): Run {
    if row.Some? then row.value else Run("", "", "", "", "unknown", "", None, None, None, None)
  }

  function ResultAfter(result: string, ws: seq<Payload>): string {
    if ws == [] then result else OrElse(ws[|ws| - 1].result, ResultAfter(result, ws[..|ws| - 1]))
  }

  lemma {:induction false} ResultTwice(result: string, ws: seq<Payload>, n: nat)
    requires n <= |ws|
    ensures ResultAfter(ResultAfter(result, ws[..n]), ws) == ResultAfter(result, ws)
  {
    if n == |ws| {
      assert ws[..n] == ws;
      ResultSettled(result, ResultAfter(result, ws), ws);
    } else {
      var front := ws[..|ws| - 1];
      assert front[..n] == ws[..n];
      ResultTwice(result, front, n);
    }
  }

  /** Either some report names a result, and the one before them does not matter, or none does, and it stays. */
  lemma {:induction false} ResultSettled(a: string, b: string, ws: seq<Payload>)
    ensures ResultAfter(a, ws) == ResultAfter(b, ws) || (ResultAfter(a, ws) == a && ResultAfter(b, ws) == b)
  {
    if ws != [] {
      ResultSettled(a, b, ws[..|ws| - 1]);
    }
  }

  lemma {:induction false} SummaryRunFold(row: Option<Run>, ws: seq<Payload>)
    requires ws != []
    ensures Fold(SummaryRun, row, ws) == SummaryRun(row, ws[|ws| - 1])
  {
    var front := ws[..|ws| - 1];
    if front == [] {
      assert Fold(SummaryRun, row, ws) == SummaryRun(row, ws[0]);
    } else {
      SummaryRunFold(row, front);
    }
  }

  lemma {:induction false} HealthStreamFold(row: Option<Stream>, ws: seq<Degradation>)
    requires ws != []
    ensures row.Some? ==>
      Fold(HealthStream, row, ws) == Some(row.value.(status := Degraded, updatedAt := ws[|ws| - 1].at))
    ensures row.None? && HealthStream(row, ws[0]).Some?
      ==> Fold(HealthStream, row, ws) == Some(HealthStream(row, ws[0]).value.(updatedAt := ws[|ws| - 1].at))
  {
    var front := ws[..|ws| - 1];
    if front == [] {
      assert Fold(HealthStream, row, ws) == HealthStream(row, ws[0]);
    } else {
      HealthStreamFold(row, front);
    }
  }

  lemma {:induction false} SummaryStreamFold(row: Option<Stream>, ws: seq<Stream>)
    requires ws != []
    ensures Fold(SummaryStream, row, ws) == Some(ws[|ws| - 1])
  {
  }

  lemma {:induction false} InsertAlertFold(row: Option<Alert>, ws: seq<Payload>)
    requires ws != []
    ensures Fold(InsertAlert, row, ws) == InsertAlert(row, ws[0])
  {
    var front := ws[..|ws| - 1];
    if front == [] {
      assert Fold(InsertAlert, row, ws) == InsertAlert(row, ws[0]);
    } else {
      InsertAlertFold(row, front);
    }
  }

  lemma {:induction false} PutCheckpointFold(row: Option<Checkpoint>, ws: seq<Payload>)
    requires ws != []
    ensures Fold(PutCheckpoint, row, ws) == PutCheckpoint(None, ws[|ws| - 1])
  {
  }

  /** Health reports made twice over leave a run as made once. */
  lemma HealthRunsMakeUp(ws: seq<Payload>)
    ensures MakesUp(HealthRun, HealthRun, [], ws)
  {
    forall x, n | 0 <= n <= |ws| ensures MadeUp(HealthRun, HealthRun, x, [], ws, n) {
      if n != 0 {
        var y := Fold(HealthRun, x, ws[..n]);
        HealthRunFold(x, ws);
        HealthRunFold(x, ws[..n]);
        HealthRunFold(y, ws);
        ResultTwice(Known(x).result, ws, n);
        assert ws[..n][..n - 1] == ws[..n - 1];
        assert Known(y).result == ResultAfter(Known(x).result, ws[..n]);
      }
    }
  }

  /** So do summaries, even with health reports in between. */
  lemma SummaryRunsMakeUp(g: seq<Payload>, ws: seq<Payload>)
    ensures MakesUp(HealthRun, SummaryRun, g, ws)
  {
    forall x, n | 0 <= n <= |ws| ensures MadeUp(HealthRun, SummaryRun, x, g, ws, n) {
      if n != 0 {
        SummaryRunFold(x, ws[..n]);
        SummaryRunFold(Fold(HealthRun, Fold(SummaryRun, x, ws[..n]), g), ws);
        SummaryRunFold(Fold(HealthRun, x, g), ws);
        SameHealth(Fold(SummaryRun, x, ws[..n]), x, g);
      }
    }
  }

  lemma SameHealth(a: Option<Run>, b: Option<Run>, g: seq<Payload>)
    requires Known(a).health == Known(b).health && Known(a).lastHealthAt == Known(b).lastHealthAt
    ensures Known(Fold(HealthRun, a, g)).health == Known(Fold(HealthRun, b, g)).health
    ensures Known(Fold(HealthRun, a, g)).lastHealthAt == Known(Fold(HealthRun, b, g)).lastHealthAt
  {
    if g != [] {
      HealthRunFold(a, g);
      HealthRunFold(b, g);
    }
  }

  lemma HealthStreamsMakeUp(ws: seq<Degradation>, scope: string)
    requires OfScope(ws, scope)
    ensures MakesUp(HealthStream, HealthStream, [], ws)
  {
    forall x, n | 0 <= n <= |ws| ensures MadeUp(HealthStream, HealthStream, x, [], ws, n) {
      if n != 0 {
        UnknownStays(ws, scope, n);
        UnknownStays(ws, scope, |ws|);
        TakeAll(ws);
        HealthStreamFold(x, ws);
        HealthStreamFold(x, ws[..n]);
        HealthStreamFold(Fold(HealthStream, x, ws[..n]), ws);
      }
    }
  }

  /** A label without three parts never becomes a stream. */
  lemma {:induction false} UnknownStays(ws: seq<Degradation>, scope: string, n: nat)
    requires n <= |ws| && OfScope(ws, scope)
    ensures |Split(scope)| != 3 ==> Fold(HealthStream, None, ws[..n]) == None
  {
    if n != 0 {
      UnknownStays(ws, scope, n - 1);
      assert ws[..n][..n - 1] == ws[..n - 1];
    }
  }

  lemma SummaryStreamsMakeUp(g: seq<Degradation>, ws: seq<Stream>)
    ensures MakesUp(HealthStream, SummaryStream, g, ws)
  {
    forall x, n | 0 <= n <= |ws| ensures MadeUp(HealthStream, SummaryStream, x, g, ws, n) {
      if n != 0 {
        SummaryStreamFold(Fold(HealthStream, Fold(SummaryStream, x, ws[..n]), g), ws);
        SummaryStreamFold(Fold(HealthStream, x, g), ws);
      }
    }
  }

  lemma AlertsMakeUp(ws: seq<Payload>)
    ensures MakesUp(InsertAlert, InsertAlert, [], ws)
  {
    forall x, n | 0 <= n <= |ws| ensures MadeUp(InsertAlert, InsertAlert, x, [], ws, n) {
      if n != 0 {
        InsertAlertFold(x, ws);
        InsertAlertFold(x, ws[..n]);
        InsertAlertFold(Fold(InsertAlert, x, ws[..n]), ws);
      }
    }
  }

  lemma CheckpointsMakeUp(ws: seq<Payload>)
    ensures MakesUp(PutCheckpoint, PutCheckpoint, [], ws)
  {
    forall x, n | 0 <= n <= |ws| ensures MadeUp(PutCheckpoint, PutCheckpoint, x, [], ws, n) {
      if n != 0 {
        PutCheckpointFold(x, ws);
        PutCheckpointFold(Fold(PutCheckpoint, x, ws[..n]), ws);
      }
    }
  }

  ghost predicate OfScope(ws: seq<Degradation>, scope: string) {
    forall i :: 0 <= i < |ws| ==> ws[i].scope == scope
  }

  ghost predicate Labelled(ws: seq<Keyed<string, Degradation>>) {
    forall i :: 0 <= i < |ws| ==> ws[i].key == ws[i].write.scope
  }

  lemma OwnScopes(lines: seq<Line>, scope: string)
    ensures OfScope(Own(WritesOf(HealthStreams, lines), scope), scope)
  {
    LabelsKept(lines);
    OwnLabels(WritesOf(HealthStreams, lines), scope);
  }

  lemma {:induction false} LabelsKept(lines: seq<Line>)
    ensures Labelled(WritesOf(HealthStreams, lines))
  {
    if lines != [] {
      LabelsKept(lines[..|lines| - 1]);
    }
  }

  lemma {:induction false} OwnLabels(ws: seq<Keyed<string, Degradation>>, scope: string)
    requires Labelled(ws)
    ensures OfScope(Own(ws, scope), scope)
  {
    if ws != [] {
      var front, last := ws[..|ws| - 1], ws[|ws| - 1];
      assert last.key == last.write.scope;
      OwnLabels(front, scope);
      if last.key == scope {
        assert Own(ws, scope) == Own(front, scope) + [last.write];
      } else {
        assert Own(ws, scope) == Own(front, scope);
      }
    }
  }

  /** What a sync that died in the middle of a file can have left of it: row by row, the first of its writes. */
  ghost predicate LeftBehind(m: Model, f: File, lines: seq<Line>, left: Model) {
    match f
    case CheckpointAuditRef =>
      && left == m.(checkpoints := left.checkpoints)
      && Partly(PutCheckpoint, m.checkpoints, WritesOf(CheckpointWrites, lines), left.checkpoints)
    case IngestionHealth =>
      && left == m.(runs := left.runs, streams := left.streams)
      && Partly(HealthRun, m.runs, WritesOf(RunWrites, lines), left.runs)
      && Partly(HealthStream, m.streams, WritesOf(HealthStreams, lines), left.streams)
    case IngestionSummary =>
      && left == m.(runs := left.runs, streams := left.streams)
      && Partly(SummaryRun, m.runs, WritesOf(RunWrites, lines), left.runs)
      && Partly(SummaryStream, m.streams, WritesOf(SummaryStreams, lines), left.streams)
    case OperationalAlert =>
      && left == m.(alerts := left.alerts)
      && Partly(InsertAlert, m.alerts, WritesOf(AlertWrites, lines), left.alerts)
    case RecoveryCommandAudit => left == m
  }

  /** Dying after any line is one way of leaving a file unfinished. */
  lemma LinesLeftBehind(m: Model, f: File, lines: seq<Line>, n: nat)
    requires n <= |lines|
    ensures LeftBehind(m, f, lines, Applied(m, f, lines[..n]))
  {
    var a, b := lines[..n], lines[n..];
    assert lines == a + b;
    match f {
      case CheckpointAuditRef =>
        WritesAppend(CheckpointWrites, a, b);
        PrefixIsPartly(PutCheckpoint, m.checkpoints, WritesOf(CheckpointWrites, a), WritesOf(CheckpointWrites, b));
      case IngestionHealth =>
        WritesAppend(RunWrites, a, b);
        WritesAppend(HealthStreams, a, b);
        PrefixIsPartly(HealthRun, m.runs, WritesOf(RunWrites, a), WritesOf(RunWrites, b));
        PrefixIsPartly(HealthStream, m.streams, WritesOf(HealthStreams, a), WritesOf(HealthStreams, b));
      case IngestionSummary =>
        WritesAppend(RunWrites, a, b);
        WritesAppend(SummaryStreams, a, b);
        PrefixIsPartly(SummaryRun, m.runs, WritesOf(RunWrites, a), WritesOf(RunWrites, b));
        PrefixIsPartly(SummaryStream, m.streams, WritesOf(SummaryStreams, a), WritesOf(SummaryStreams, b));
      case OperationalAlert =>
        WritesAppend(AlertWrites, a, b);
        PrefixIsPartly(InsertAlert, m.alerts, WritesOf(AlertWrites, a), WritesOf(AlertWrites, b));
      case RecoveryCommandAudit =>
    }
  }
}
