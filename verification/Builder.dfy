/** The read-model builder over the control plane's store (`builder.py`, `sqlite_store.py`). */
module Builder {
  import opened Sequences
  import opened Nodes
  import opened KeyedTables
  import opened ReadModel
  import opened SyncCrashes
  import opened Rows

  class ControlPlaneStore {
    var runs: map<string, Run>
    var streams: map<string, Stream>
    var alerts: map<Payload, Alert>
    var checkpoints: map<string, Checkpoint>
    var offsets: Offsets

    ghost function Value(): Model
      reads this
    {
      Model(runs, streams, alerts, checkpoints)
    }

    /** A stream's row is stored under its own label. */
    ghost predicate Valid()
      reads this`streams
    {
      forall k :: k in streams ==> streams[k].scope == k
    }

    constructor ()
      ensures Valid()
      ensures Value() == START.model && offsets == START.offsets
    {
      runs, streams, alerts, checkpoints := map[], map[], map[], map[];
      offsets := PerFile(0, 0, 0, 0, 0);
    }

    method UpsertRun(record: Run)
      modifies this`runs
      ensures runs == old(runs)[record.runId := record]
    {
      runs := runs[record.runId := record];
    }

    method UpsertStreamStatus(record: Stream)
      modifies this`streams
      ensures old(Valid()) ==> Valid()
      ensures streams == old(streams)[record.scope := record]
    {
      streams := streams[record.scope := record];
    }

    method InsertAlertRow(id: Payload, record: Alert)
      modifies this`alerts
      ensures alerts == if id in old(alerts) then old(alerts) else old(alerts)[id := record]
    {
      if id !in alerts {
        alerts := alerts[id := record];
      }
    }

    /** An alert is acknowledged once: later acknowledgements change nothing. */
    method AckAlert(id: Payload, at: string, who: string) returns (changed: bool)
      modifies this`alerts
      ensures changed <==> id in old(alerts) && old(alerts)[id].ack == Open
      ensures alerts == if changed then old(alerts)[id := old(alerts)[id].(ack := Acked(at, who))] else old(alerts)
    {
      changed := id in alerts && alerts[id].ack == Open;
      if changed {
        alerts := alerts[id := alerts[id].(ack := Acked(at, who))];
      }
    }

    method UpsertCheckpointSummary(record: Checkpoint)
      modifies this`checkpoints
      ensures checkpoints == old(checkpoints)[record.streamKey := record]
    {
      checkpoints := checkpoints[record.streamKey := record];
    }

    method UpdateOffset(f: File, lastLine: nat)
      modifies this`offsets
      ensures offsets == With(old(offsets), f, lastLine)
    {
      offsets := With(offsets, f, lastLine);
    }
  }

  /** The lines handled so far, of those after the offset. */
  function Handled(lines: seq<Line>, offset: nat, i: nat): seq<Line>
    requires i <= |lines|
  {
    if offset <= i then lines[offset..i] else []
  }

  /** Where the loop stands when the lines before the i-th have been handled. */
  ghost predicate Progress(m: Model, f: File, lines: seq<Line>, offset: nat, life: nat, i: nat, last: nat, now: Model) {
    && i <= |lines|
    && last == (if offset <= i then i else offset) && last <= offset + life
    && now == Applied(m, f, Handled(lines, offset, i))
  }

  lemma ProgressStart(m: Model, f: File, lines: seq<Line>, offset: nat, life: nat)
    ensures Progress(m, f, lines, offset, life, 0, offset, m)
  {
    BlankLine(m, f);
  }

  lemma ProgressNext(m: Model, f: File, lines: seq<Line>, offset: nat, life: nat, i: nat, last: nat, now: Model)
    requires Progress(m, f, lines, offset, life, i, last, now) && offset <= i < |lines| && i != offset + life
    ensures Progress(m, f, lines, offset, life, i + 1, i + 1, Applied(now, f, [lines[i]]))
  {
    SliceNext(lines, offset, i);
    AppliedAppend(m, f, lines[offset..i], [lines[i]]);
  }

  lemma SkipNext(m: Model, f: File, lines: seq<Line>, offset: nat, life: nat, i: nat, last: nat, now: Model)
    requires Progress(m, f, lines, offset, life, i, last, now) && i < offset && i < |lines|
    ensures Progress(m, f, lines, offset, life, i + 1, last, now)
  {
  }

  /** All pending lines are handled, or the first `life` of them when there are more. */
  ghost predicate LivedThrough(m: Model, f: File, pend: seq<Line>, life: nat, died: bool, now: Model) {
    && (died <==> life < |pend|)
    && now == Applied(m, f, if life < |pend| then pend[..life] else pend)
  }

  lemma DiedOnTheWay(m: Model, f: File, lines: seq<Line>, offset: nat, life: nat, last: nat, now: Model)
    requires offset + life < |lines| && Progress(m, f, lines, offset, life, offset + life, last, now)
    ensures LivedThrough(m, f, Beyond(lines, offset), life, true, now) && last == offset + life
  {
    assert lines[offset..][..life] == lines[offset..offset + life];
  }

  lemma CameThrough(m: Model, f: File, lines: seq<Line>, offset: nat, life: nat, last: nat, now: Model)
    requires Progress(m, f, lines, offset, life, |lines|, last, now)
    ensures last == Later(offset, lines) == offset + |Beyond(lines, offset)|
    ensures LivedThrough(m, f, Beyond(lines, offset), life, false, now)
  {
    if offset <= |lines| {
      assert lines[offset..] == lines[offset..|lines|];
    }
  }

  const FILES := [CheckpointAuditRef, IngestionHealth, IngestionSummary, OperationalAlert, RecoveryCommandAudit]

  /** The machine when the first `i` files have been read. */
  ghost predicate ReadUpTo(st: Machine, i: nat, offsets: Offsets, model: Model)
    requires i <= |FILES|
  {
    Machine(st.logs, offsets, model) == if i < |FILES| then Next(st, Stop(FILES[i])) else Next(st, Sync)
  }

  lemma FileRead(st: Machine, i: nat, offsets: Offsets, model: Model)
    requires i < |FILES| && ReadUpTo(st, i, offsets, model)
    ensures var f := FILES[i];
            && Of(offsets, f) == Of(st.offsets, f) && Rank(f) == i
            && model == UpTo(st.model, Pending(st), f) && offsets == Committed(st, f)
            && Of(Pending(st), f) == Beyond(Of(st.logs, f), Of(offsets, f))
            && ReadUpTo(st, i + 1, With(offsets, f, Later(Of(offsets, f), Of(st.logs, f))),
               Applied(model, f, Of(Pending(st), f)))
  {
  }

  class ReadModelBuilder {
    const store: ControlPlaneStore

    constructor (store: ControlPlaneStore)
      ensures this.store == store
    {
      this.store := store;
    }

    method ApplySummary(p: Payload)
      requires store.Valid()
      modifies store`runs, store`streams
      ensures store.Valid()
      ensures store.Value() == Applied(old(store.Value()), IngestionSummary, [Some(p)])
      ensures RunSummarized(p, old(store.runs), store.runs)
      ensures StreamsMeasured(p, p.streamMetrics, old(store.streams), store.streams)
    {
      SummaryWrites(store.Value(), p);
      var runId := RunId(p);
      var existing := Lookup(store.runs, runId);
      store.UpsertRun(Run(runId, runId, OrElse(p.env, "unknown"), OrElse(p.mode, "unknown"),
                          OrElse(p.result, "unknown"), At(p), Some(At(p)),
                          if existing.Some? then existing.value.lastHealthAt else None,
                          Some(p), if existing.Some? then existing.value.health else None));
      ghost var ws := SummaryStreams(Some(p));
      ghost var before := store.streams;
      assert ws[..0] == [];
      for i := 0 to |p.streamMetrics|
        invariant store.runs == old(store.runs)[runId := SummaryRun(existing, p).value]
        invariant store.streams == TouchAll(SummaryStream, before, ws[..i]) && store.Valid()
      {
        TouchNext(SummaryStream, before, ws, i);
        store.UpsertStreamStatus(StreamRecord(p, p.streamMetrics[i]));
      }
      TakeAll(ws);
      SummaryLine(old(store.Value()), p);
    }

    method ApplyHealth(p: Payload)
      requires store.Valid()
      modifies store`runs, store`streams
      ensures store.Valid()
      ensures store.Value() == Applied(old(store.Value()), IngestionHealth, [Some(p)])
      ensures RunReported(p, old(store.runs), store.runs)
      ensures StreamsDegraded(p, old(store.streams), store.streams)
    {
      HealthWrites(store.Value(), p);
      var runId := RunId(p);
      var existing := Lookup(store.runs, runId);
      store.UpsertRun(Run(runId, runId, OrElse(p.env, "unknown"), OrElse(p.mode, "unknown"),
                          OrElse(p.result, if existing.Some? then existing.value.result else "unknown"),
                          At(p), if existing.Some? then existing.value.lastSummaryAt else None, Some(At(p)),
                          if existing.Some? then existing.value.summary else None, Some(p)));
      var degraded := Distinct(p.streamsDegraded);
      ghost var ws := HealthStreams(Some(p));
      ghost var before := store.streams;
      assert ws[..0] == [];
      for i := 0 to |degraded|
        invariant store.runs == old(store.runs)[runId := HealthRun(existing, p).value]
        invariant store.streams == TouchAll(HealthStream, before, ws[..i])
        invariant store.Valid()
      {
        TouchNext(HealthStream, before, ws, i);
        var scope := degraded[i];
        var stream := Lookup(store.streams, scope);
        if stream.None? {
          var parts := Split(scope);
          if |parts| != 3 {
            continue;
          }
          store.UpsertStreamStatus(Stream(scope, parts[0], parts[1], parts[2], Degraded, runId, At(p),
            DegradedByHealth));
        } else {
          store.UpsertStreamStatus(stream.value.(status := Degraded, updatedAt := At(p)));
        }
      }
      TakeAll(ws);
      HealthLine(old(store.Value()), p);
    }

    method ApplyAlert(p: Payload)
      modifies store`alerts
      ensures store.Value() == Applied(old(store.Value()), OperationalAlert, [Some(p)])
      ensures AlertInserted(p, old(store.alerts), store.alerts)
    {
      AlertWritten(store.Value(), p);
      var severity := OrElse(p.alertSeverity, OrElse(p.severity, "warning"));
      store.InsertAlertRow(p,
        Alert(p.traceId, p.env, p.mode, OrElse(p.alertType, "unknown"), severity, OrElse(p.observed, 0.0),
              OrElse(p.threshold, 0), OrElse(p.recommendedAction, ""), At(p), p, Open));
      AlertLine(old(store.Value()), p);
    }

    method ApplyCheckpointRef(p: Payload)
      modifies store`checkpoints
      ensures store.Value() == Applied(old(store.Value()), CheckpointAuditRef, [Some(p)])
      ensures CheckpointPut(p, old(store.checkpoints), store.checkpoints)
    {
      CheckpointWritten(store.Value(), p);
      CheckpointLine(store.Value(), p);
      var streamKey := OrElse(p.streamKey, "");
      if streamKey == "" || streamKey == "*" {
        return;
      }
      store.UpsertCheckpointSummary(Checkpoint(streamKey, OrElse(p.checkpointPath, ""), At(p), p.cursorKind,
                                               p.cursorValue, OrElse(p.cursorSeenEntryCount, 0)));
    }

    method ApplyEvent(f: File, p: Payload)
      requires store.Valid()
      modifies store`runs, store`streams, store`alerts, store`checkpoints
      ensures store.Valid()
      ensures store.Value() == Applied(old(store.Value()), f, [Some(p)])
    {
      match f {
        case IngestionSummary => ApplySummary(p);
        case IngestionHealth => ApplyHealth(p);
        case OperationalAlert => ApplyAlert(p);
        case CheckpointAuditRef => ApplyCheckpointRef(p);
        case RecoveryCommandAudit =>
      }
    }

    method ApplyLine(f: File, line: Line)
      requires store.Valid()
      modifies store`runs, store`streams, store`alerts, store`checkpoints
      ensures store.Valid()
      ensures store.Value() == Applied(old(store.Value()), f, [line])
    {
      if line.None? {
        BlankLine(store.Value(), f);
      } else {
        ApplyEvent(f, line.value);
      }
    }

    /** One round of the loop: a line up to the offset is passed over. */
    method HandleLine(f: File, lines: seq<Line>, offset: nat, i: nat, last: nat, ghost life: nat, ghost m: Model)
      returns (lastProcessed: nat)
      requires store.Valid() && i < |lines| && i != offset + life
      requires Progress(m, f, lines, offset, life, i, last, store.Value())
      modifies store`runs, store`streams, store`alerts, store`checkpoints
      ensures store.Valid() && Progress(m, f, lines, offset, life, i + 1, lastProcessed, store.Value())
    {
      if i + 1 <= offset {
        SkipNext(m, f, lines, offset, life, i, last, store.Value());
        return last;
      }
      ProgressNext(m, f, lines, offset, life, i, last, store.Value());
      ApplyLine(f, lines[i]);
      lastProcessed := i + 1;
    }

    /** The loop of `SyncFile`: handle the lines after the offset, at most `life` of them. */
    method HandleLines(f: File, lines: seq<Line>, offset: nat, life: nat) returns (died: bool, lastProcessed: nat)
      requires store.Valid()
      modifies store`runs, store`streams, store`alerts, store`checkpoints
      ensures store.Valid()
      ensures LivedThrough(old(store.Value()), f, Beyond(lines, offset), life, died, store.Value())
      ensures lastProcessed == if died then offset + life else offset + |Beyond(lines, offset)|
      ensures !died ==> lastProcessed == Later(offset, lines)
    {
      ghost var m := store.Value();
      died, lastProcessed := false, offset;
      ProgressStart(m, f, lines, offset, life);
      for i := 0 to |lines|
        invariant store.Valid() && Progress(m, f, lines, offset, life, i, lastProcessed, store.Value())
      {
        if i == offset + life {
          DiedOnTheWay(m, f, lines, offset, life, lastProcessed, store.Value());
          died := true;
          return;
        }
        lastProcessed := HandleLine(f, lines, offset, i, lastProcessed, life, m);
      }
      CameThrough(m, f, lines, offset, life, lastProcessed, store.Value());
    }

    /**
      * Handle the lines after the stored offset, then store the new one. The process lives for
      * `life` more of these actions; it may die after any line.
      */
    method SyncFile(f: File, lines: seq<Line>, life: nat) returns (died: bool, left: nat)
      requires store.Valid()
      modifies store
      ensures store.Valid()
      ensures died <==> var pend := Beyond(lines, Of(old(store.offsets), f)); pend != [] && life <= |pend|
      ensures died ==>
        && store.Value() == Applied(old(store.Value()), f, Beyond(lines, Of(old(store.offsets), f))[..life])
        && store.offsets == old(store.offsets)
      ensures !died ==>
        var pend := Beyond(lines, Of(old(store.offsets), f));
        && left == life - (if pend == [] then 0 else |pend| + 1)
        && store.Value() == Applied(old(store.Value()), f, pend)
        && store.offsets == With(old(store.offsets), f, Later(Of(old(store.offsets), f), lines))
    {
      var offset := Of(store.offsets, f);
      var lastProcessed;
      died, lastProcessed := HandleLines(f, lines, offset, life);
      left := life - if died then 0 else lastProcessed - offset;
      if died || lastProcessed == offset {
        return;
      }
      if left == 0 {
        died := true;
        assert Beyond(lines, offset)[..life] == Beyond(lines, offset);
        return;
      }
      left := left - 1;
      store.UpdateOffset(f, lastProcessed);
    }

    /** A complete sync or one that dies: `step` says which, and what it left behind. */
    method SyncOnce(logs: Logs, life: nat) returns (died: bool, ghost step: Step)
      requires store.Valid()
      modifies store
      ensures store.Valid()
      ensures var st := Machine(logs, old(store.offsets), old(store.Value()));
              && CanHappen(st, step) && Machine(logs, store.offsets, store.Value()) == Next(st, step)
              && (if died then step.Die? else step.Sync?)
    {
      ghost var st := Machine(logs, store.offsets, store.Value());
      var left := life;
      for i := 0 to |FILES|
        invariant store.Valid() && ReadUpTo(st, i, store.offsets, store.Value())
      {
        FileRead(st, i, store.offsets, store.Value());
        ghost var before := store.Value();
        ghost var lived := left;
        died, left := SyncFile(FILES[i], Of(logs, FILES[i]), left);
        if died {
          step := Die(FILES[i], store.Value());
          LinesLeftBehind(before, FILES[i], Of(Pending(st), FILES[i]), lived);
          return;
        }
      }
      died, step := false, Sync;
    }
  }
}
