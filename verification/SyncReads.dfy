/** Whatever died before it, a complete sync has read every line of every log (`builder.py`). */
module SyncReads {
  import opened Sequences
  import opened Nodes
  import opened ReadModel
  import opened Rows
  import opened SyncCrashes

  ghost predicate NamedIn(lines: seq<Line>, id: string) {
    exists p :: Some(p) in lines && NamesRun(p, id)
  }

  /** A health report names this label of three parts. */
  ghost predicate DegradedIn(lines: seq<Line>, scope: string) {
    multiset(scope)[':'] == 2 && exists p :: Some(p) in lines && scope in p.streamsDegraded
  }

  /** A summary has a metric with this label. */
  ghost predicate MeasuredIn(lines: seq<Line>, scope: string) {
    exists p :: Some(p) in lines && !NoneLabelled(p.streamMetrics, scope)
  }

  ghost predicate CheckpointedIn(lines: seq<Line>, key: string) {
    exists p :: Some(p) in lines && Checkpoints(p, key)
  }

  ghost predicate RunsRead(runs: map<string, Run>, health: seq<Line>, summaries: seq<Line>) {
    forall id :: id in runs <==> NamedIn(health, id) || NamedIn(summaries, id)
  }

  ghost predicate StreamsRead(streams: map<string, Stream>, health: seq<Line>, summaries: seq<Line>) {
    forall scope :: scope in streams <==> DegradedIn(health, scope) || MeasuredIn(summaries, scope)
  }

  /** One alert for every payload ever raised. */
  ghost predicate AlertsRead(alerts: map<Payload, Alert>, lines: seq<Line>) {
    && (forall p :: p in alerts <==> Some(p) in lines)
    && (forall p :: p in alerts ==> NewAlert(p, alerts[p]))
  }

  ghost predicate LastFor(lines: seq<Line>, i: int, key: string) {
    && 0 <= i < |lines| && lines[i].Some? && Checkpoints(lines[i].value, key)
    && !CheckpointedIn(lines[i + 1..], key)
  }

  /** One checkpoint for every key, that of its last line. */
  ghost predicate CheckpointsRead(checkpoints: map<string, Checkpoint>, lines: seq<Line>) {
    && (forall key :: key in checkpoints <==> CheckpointedIn(lines, key))
    && (forall key, i :: LastFor(lines, i, key) ==>
          key in checkpoints && CheckpointRow(lines[i].value, checkpoints[key]))
  }

  /** The tables hold what these lines write, and nothing else. */
  ghost predicate ReadBack(m: Model, read: Logs) {
    && RunsRead(m.runs, read.health, read.summaries) && StreamsRead(m.streams, read.health, read.summaries)
    && AlertsRead(m.alerts, read.alerts) && CheckpointsRead(m.checkpoints, read.checkpoints)
  }

  // ---- one more line ----

  lemma NamedNext(lines: seq<Line>, p: Payload)
    ensures forall id :: NamedIn(lines + [Some(p)], id) <==> NamedIn(lines, id) || NamesRun(p, id)
  {
    forall id ensures NamedIn(lines + [Some(p)], id) <==> NamedIn(lines, id) || NamesRun(p, id) {
      assert Some(p) in lines + [Some(p)];
    }
  }

  lemma DegradedNext(lines: seq<Line>, p: Payload)
    ensures forall scope :: DegradedIn(lines + [Some(p)], scope) <==>
      DegradedIn(lines, scope) || (multiset(scope)[':'] == 2 && scope in p.streamsDegraded)
  {
    forall scope ensures DegradedIn(lines + [Some(p)], scope)
      <==> DegradedIn(lines, scope) || (multiset(scope)[':'] == 2 && scope in p.streamsDegraded)
    {
      assert Some(p) in lines + [Some(p)];
    }
  }

  lemma MeasuredInNext(lines: seq<Line>, p: Payload)
    ensures forall scope :: MeasuredIn(lines + [Some(p)], scope) <==>
      MeasuredIn(lines, scope) || !NoneLabelled(p.streamMetrics, scope)
  {
    forall scope ensures MeasuredIn(lines + [Some(p)], scope)
      <==> MeasuredIn(lines, scope) || !NoneLabelled(p.streamMetrics, scope)
    {
      assert Some(p) in lines + [Some(p)];
    }
  }

  lemma CheckpointedNext(lines: seq<Line>, p: Payload)
    ensures forall key :: CheckpointedIn(lines + [Some(p)], key) <==> CheckpointedIn(lines, key) || Checkpoints(p, key)
  {
    forall key ensures CheckpointedIn(lines + [Some(p)], key) <==> CheckpointedIn(lines, key) || Checkpoints(p, key) {
      assert Some(p) in lines + [Some(p)];
    }
  }

  /** A blank line adds nothing. */
  lemma BlankNext(lines: seq<Line>)
    ensures forall id :: NamedIn(lines + [None], id) <==> NamedIn(lines, id)
    ensures forall scope :: DegradedIn(lines + [None], scope) <==> DegradedIn(lines, scope)
    ensures forall scope :: MeasuredIn(lines + [None], scope) <==> MeasuredIn(lines, scope)
    ensures forall key :: CheckpointedIn(lines + [None], key) <==> CheckpointedIn(lines, key)
  {
    assert forall p :: Some(p) in lines + [None] <==> Some(p) in lines;
  }

  /** The one run a summary or a health report names. */
  lemma OneRun(p: Payload, id: string, before: map<string, Run>, after: map<string, Run>)
    requires NamesRun(p, id) && OnlyRow(before, after, id)
    ensures forall k :: k in after <==> k in before || NamesRun(p, k)
  {
    RunIdNames(p);
    forall k ensures k in after <==> k in before || NamesRun(p, k) {
      assert k != id ==> SameRow(before, after, k);
    }
  }

  lemma MeasuredKeys(p: Payload, before: map<string, Stream>, after: map<string, Stream>)
    requires StreamsMeasured(p, p.streamMetrics, before, after)
    ensures forall scope :: scope in after <==> scope in before || !NoneLabelled(p.streamMetrics, scope)
  {
    forall scope ensures scope in after <==> scope in before || !NoneLabelled(p.streamMetrics, scope) {
      if NoneLabelled(p.streamMetrics, scope) {
        assert SameRow(before, after, scope);
      } else {
        var i := LastLabelled(p.streamMetrics, scope);
      }
    }
  }

  lemma {:induction false} LastLabelled(metrics: seq<Metric>, scope: string) returns (i: nat)
    requires !NoneLabelled(metrics, scope)
    ensures LastWithLabel(metrics, i, scope)
  {
    var n := |metrics| - 1;
    if HasLabel(metrics[n], scope) {
      i := n;
    } else {
      assert !NoneLabelled(metrics[..n], scope) by {
        var j :| 0 <= j < |metrics| && HasLabel(metrics[j], scope);
        assert metrics[..n][j] == metrics[j];
      }
      i := LastLabelled(metrics[..n], scope);
    }
  }

  lemma DegradedKeys(p: Payload, before: map<string, Stream>, after: map<string, Stream>)
    requires StreamsDegraded(p, before, after)
    ensures forall scope :: scope in after <==>
      scope in before || (multiset(scope)[':'] == 2 && scope in p.streamsDegraded)
  {
    forall scope ensures scope in after
      <==> scope in before || (multiset(scope)[':'] == 2 && scope in p.streamsDegraded)
    {
      if scope in p.streamsDegraded {
        assert DegradedStream(p, scope, Lookup(before, scope), Lookup(after, scope));
      } else {
        assert SameRow(before, after, scope);
      }
    }
  }

  lemma CheckpointNext(p: Payload, lines: seq<Line>, before: map<string, Checkpoint>, after: map<string, Checkpoint>)
    requires CheckpointsRead(before, lines) && CheckpointPut(p, before, after)
    ensures CheckpointsRead(after, lines + [Some(p)])
  {
    var all := lines + [Some(p)];
    CheckpointedNext(lines, p);
    forall key ensures key in after <==> CheckpointedIn(all, key) {
      assert key != Given(p.streamKey, "") && after != before ==> SameRow(before, after, key);
    }
    forall key, i | LastFor(all, i, key) ensures key in after && CheckpointRow(all[i].value, after[key]) {
      if i < |lines| {
        EarlierLast(lines, Some(p), i, key);
        assert after != before ==> SameRow(before, after, key);
      }
    }
  }

  lemma EarlierLast(lines: seq<Line>, line: Line, i: nat, key: string)
    requires i < |lines| && LastFor(lines + [line], i, key)
    ensures LastFor(lines, i, key) && (line.Some? ==> !Checkpoints(line.value, key))
  {
    var rest := lines[i + 1..];
    assert (lines + [line])[i + 1..] == rest + [line] && line in rest + [line];
    assert forall p :: Some(p) in rest ==> Some(p) in rest + [line];
  }

  lemma BlankCheckpoints(checkpoints: map<string, Checkpoint>, lines: seq<Line>)
    requires CheckpointsRead(checkpoints, lines)
    ensures CheckpointsRead(checkpoints, lines + [None])
  {
    BlankNext(lines);
    forall key, i | LastFor(lines + [None], i, key)
      ensures key in checkpoints && CheckpointRow((lines + [None])[i].value, checkpoints[key])
    {
      EarlierLast(lines, None, i, key);
    }
  }

  function More(read: Logs, f: File, lines: seq<Line>): Logs {
    With(read, f, Of(read, f) + lines)
  }

  lemma LineRead(m: Model, read: Logs, f: File, line: Line)
    requires ReadBack(m, read)
    ensures ReadBack(Applied(m, f, [line]), More(read, f, [line]))
  {
    if line.None? {
      BlankLine(m, f);
      BlankNext(Of(read, f));
      BlankCheckpoints(m.checkpoints, read.checkpoints);
    } else {
      var p := line.value;
      match f {
        case CheckpointAuditRef =>
          CheckpointWritten(m, p);
          CheckpointNext(p, read.checkpoints, m.checkpoints, Applied(m, f, [line]).checkpoints);
        case IngestionHealth => HealthRead(m, read, p);
        case IngestionSummary => SummaryRead(m, read, p);
        case OperationalAlert => AlertRead(m, read, p);
        case RecoveryCommandAudit =>
      }
    }
  }

  lemma HealthRead(m: Model, read: Logs, p: Payload)
    requires ReadBack(m, read)
    ensures ReadBack(Applied(m, IngestionHealth, [Some(p)]), More(read, IngestionHealth, [Some(p)]))
  {
    HealthWrites(m, p);
    var after := Applied(m, IngestionHealth, [Some(p)]);
    var id :| NamesRun(p, id) && OnlyRow(m.runs, after.runs, id);
    OneRun(p, id, m.runs, after.runs);
    DegradedKeys(p, m.streams, after.streams);
    NamedNext(read.health, p);
    DegradedNext(read.health, p);
  }

  lemma SummaryRead(m: Model, read: Logs, p: Payload)
    requires ReadBack(m, read)
    ensures ReadBack(Applied(m, IngestionSummary, [Some(p)]), More(read, IngestionSummary, [Some(p)]))
  {
    SummaryWrites(m, p);
    var after := Applied(m, IngestionSummary, [Some(p)]);
    var id :| NamesRun(p, id) && OnlyRow(m.runs, after.runs, id);
    OneRun(p, id, m.runs, after.runs);
    MeasuredKeys(p, m.streams, after.streams);
    NamedNext(read.summaries, p);
    MeasuredInNext(read.summaries, p);
  }

  lemma AlertRead(m: Model, read: Logs, p: Payload)
    requires ReadBack(m, read)
    ensures ReadBack(Applied(m, OperationalAlert, [Some(p)]), More(read, OperationalAlert, [Some(p)]))
  {
    AlertWritten(m, p);
    var after := Applied(m, OperationalAlert, [Some(p)]);
    forall q ensures q in after.alerts <==> Some(q) in read.alerts + [Some(p)] {
      assert q != p && p !in m.alerts ==> SameRow(m.alerts, after.alerts, q);
    }
    forall q | q in after.alerts ensures NewAlert(q, after.alerts[q]) {
      assert q != p && p !in m.alerts ==> SameRow(m.alerts, after.alerts, q);
    }
  }

  // ---- files, steps and runs ----

  lemma {:induction false} FileReadBack(m: Model, read: Logs, f: File, lines: seq<Line>)
    requires ReadBack(m, read)
    ensures ReadBack(Applied(m, f, lines), More(read, f, lines))
  {
    if lines == [] {
      BlankLine(m, f);
      assert Of(read, f) + lines == Of(read, f);
    } else {
      var front, last := lines[..|lines| - 1], lines[|lines| - 1];
      FileReadBack(m, read, f, front);
      FrontLast(lines);
      AppliedAppend(m, f, front, [last]);
      LineRead(Applied(m, f, front), More(read, f, front), f, last);
      assert Of(read, f) + front + [last] == Of(read, f) + lines;
    }
  }

  /** The lines read so far. */
  function ReadOf(st: Machine): Logs
    requires Sane(st)
  {
    PerFile(st.logs.checkpoints[..st.offsets.checkpoints], st.logs.health[..st.offsets.health],
            st.logs.summaries[..st.offsets.summaries], st.logs.alerts[..st.offsets.alerts],
            st.logs.commands[..st.offsets.commands])
  }

  lemma {:induction false} StopReads(st: Machine, f: File)
    requires Sane(st) && ReadBack(st.model, ReadOf(st))
    ensures ReadBack(Next(st, Stop(f)).model, ReadOf(Next(st, Stop(f))))
    decreases Rank(f), 0
  {
    var at := Next(st, Stop(f));
    match f {
      case CheckpointAuditRef =>
      case IngestionHealth => NextFile(st, CheckpointAuditRef, at);
      case IngestionSummary => NextFile(st, IngestionHealth, at);
      case OperationalAlert => NextFile(st, IngestionSummary, at);
      case RecoveryCommandAudit => NextFile(st, OperationalAlert, at);
    }
  }

  lemma {:induction false} NextFile(st: Machine, f: File, at: Machine)
    requires Sane(st) && Sane(at) && ReadBack(st.model, ReadOf(st))
    requires var stopped := Next(st, Stop(f));
      at == Machine(st.logs, With(stopped.offsets, f, |Of(st.logs, f)|), Applied(stopped.model, f, Of(Pending(st), f)))
    ensures ReadBack(at.model, ReadOf(at))
    decreases Rank(f), 1
  {
    StopReads(st, f);
    var stopped := Next(st, Stop(f));
    FileReadBack(stopped.model, ReadOf(stopped), f, Of(Pending(st), f));
    StopSane(st, f);
    FileTaken(st, f, stopped.offsets);
    OnlyOffsets(stopped, st.(offsets := stopped.offsets));
    OnlyOffsets(at, st.(offsets := at.offsets));
  }

  lemma StopSane(st: Machine, f: File)
    requires Sane(st)
    ensures Sane(Next(st, Stop(f))) && Next(st, Stop(f)).logs == st.logs
    ensures Of(Next(st, Stop(f)).offsets, f) == Of(st.offsets, f)
  {
  }

  /** Reading a file to its end reads what was pending of it. */
  lemma FileTaken(st: Machine, f: File, offsets: Offsets)
    requires Sane(st) && Sane(st.(offsets := offsets)) && Of(offsets, f) == Of(st.offsets, f)
    ensures ReadOf(st.(offsets := With(offsets, f, |Of(st.logs, f)|)))
         == More(ReadOf(st.(offsets := offsets)), f, Of(Pending(st), f))
  {
    var o, lines := Of(st.offsets, f), Of(st.logs, f);
    assert lines[..o] + lines[o..] == lines[..|lines|];
  }

  lemma OnlyOffsets(a: Machine, b: Machine)
    requires Sane(a) && a.logs == b.logs && a.offsets == b.offsets
    ensures Sane(b) && ReadOf(a) == ReadOf(b)
  {
  }

  lemma AppendReads(st: Machine, f: File, line: Line)
    requires Sane(st)
    ensures ReadOf(Next(st, Append(f, line))) == ReadOf(st)
  {
    StillTaken(Of(st.logs, f), Of(st.offsets, f), line);
  }

  lemma StillTaken(lines: seq<Line>, offset: nat, line: Line)
    requires offset <= |lines|
    ensures (lines + [line])[..offset] == lines[..offset]
  {
  }

  lemma {:induction false} RunReads(steps: seq<Step>)
    requires forall i :: 0 <= i < |steps| ==> !steps[i].Die?
    ensures Sane(After(START, steps)) && ReadBack(After(START, steps).model, ReadOf(After(START, steps)))
  {
    StaysSane(START, steps);
    if steps != [] {
      var front, last := steps[..|steps| - 1], steps[|steps| - 1];
      RunReads(front);
      var st := After(START, front);
      match last {
        case Append(f, line) => AppendReads(st, f, line);
        case Sync => NextFile(st, RecoveryCommandAudit, Next(st, Sync));
        case Stop(f) => StopReads(st, f);
      }
    }
  }

  /**
    * After any run, whatever died in it, a complete sync has left a run and a stream for exactly the
    * names in the health and summary logs, one alert for each payload, and for each key the last checkpoint.
    */
  lemma EveryLineRead(steps: seq<Step>)
    requires ValidRun(START, steps)
    ensures var st := After(START, steps + [Sync]); ReadBack(st.model, st.logs) && AllLines(st.logs, st.offsets)
  {
    var stopped := Stopped(steps) + [Sync];
    DeadSyncsOnlyFinishFiles(START, steps);
    NoDeaths(steps);
    RunReads(stopped);
    SyncedAll(Stopped(steps));
  }

  predicate AllLines(logs: Logs, offsets: Offsets) {
    && offsets.checkpoints == |logs.checkpoints| && offsets.health == |logs.health|
    && offsets.summaries == |logs.summaries| && offsets.alerts == |logs.alerts| && offsets.commands == |logs.commands|
  }

  lemma SyncedAll(steps: seq<Step>)
    ensures var st := After(START, steps + [Sync]); Sane(st) && AllLines(st.logs, st.offsets) && ReadOf(st) == st.logs
  {
    AfterNext(START, steps, Sync);
    StaysSane(START, steps);
    SyncReadsAll(After(START, steps));
    AllRead(After(START, steps + [Sync]));
  }

  lemma AllRead(st: Machine)
    requires Sane(st) && AllLines(st.logs, st.offsets)
    ensures ReadOf(st) == st.logs
  {
    TakeAll(st.logs.checkpoints);
    TakeAll(st.logs.health);
    TakeAll(st.logs.summaries);
    TakeAll(st.logs.alerts);
    TakeAll(st.logs.commands);
  }

  lemma {:induction false} NoDeaths(steps: seq<Step>)
    ensures forall i :: 0 <= i < |Stopped(steps)| ==> !Stopped(steps)[i].Die?
  {
    if steps != [] {
      NoDeaths(steps[..|steps| - 1]);
    }
  }
}
