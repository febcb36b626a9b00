/** Runs of log appends, syncs and syncs that die (`builder.py`). */
module SyncCrashes {
  import opened Sequences
  import opened Nodes
  import opened KeyedTables
  import opened ReadModel

  /** Something for each of the logs. */
  datatype PerFile<+T> = PerFile(checkpoints: T, health: T, summaries: T, alerts: T, commands: T)

  type Logs = PerFile<seq<Line>>

  type Offsets = PerFile<nat>

  function Of<T>(p: PerFile<T>, f: File): T {
    match f
    case CheckpointAuditRef => p.checkpoints
    case IngestionHealth => p.health
    case IngestionSummary => p.summaries
    case OperationalAlert => p.alerts
    case RecoveryCommandAudit => p.commands
  }

  function With<T>(p: PerFile<T>, f: File, t: T): PerFile<T> {
    match f
    case CheckpointAuditRef => p.(checkpoints := t)
    case IngestionHealth => p.(health := t)
    case IngestionSummary => p.(summaries := t)
    case OperationalAlert => p.(alerts := t)
    case RecoveryCommandAudit => p.(commands := t)
  }

  const NO_LINES: Logs := PerFile([], [], [], [], [])

  function Joined(a: Logs, b: Logs): Logs {
    PerFile(a.checkpoints + b.checkpoints, a.health + b.health, a.summaries + b.summaries, a.alerts + b.alerts,
            a.commands + b.commands)
  }

  /** The lines after the stored offset. */
  function Beyond(lines: seq<Line>, offset: nat): seq<Line> {
    if offset <= |lines| then lines[offset..] else []
  }

  function Later(offset: nat, lines: seq<Line>): nat {
    if offset < |lines| then |lines| else offset
  }

  /** Logs, the offset stored for each, and the read model. */
  datatype Machine = Machine(logs: Logs, offsets: Offsets, model: Model)

  const START := Machine(NO_LINES, PerFile(0, 0, 0, 0, 0), Model(map[], map[], map[], map[]))

  function Pending(st: Machine): Logs {
    PerFile(Beyond(st.logs.checkpoints, st.offsets.checkpoints), Beyond(st.logs.health, st.offsets.health),
            Beyond(st.logs.summaries, st.offsets.summaries), Beyond(st.logs.alerts, st.offsets.alerts),
            Beyond(st.logs.commands, st.offsets.commands))
  }

  /** The files before `f` have been read to their end. */
  function Committed(st: Machine, f: File): Offsets {
    var o, l, r := st.offsets, st.logs, Rank(f);
    PerFile(if 0 < r then Later(o.checkpoints, l.checkpoints) else o.checkpoints,
            if 1 < r then Later(o.health, l.health) else o.health,
            if 2 < r then Later(o.summaries, l.summaries) else o.summaries,
            if 3 < r then Later(o.alerts, l.alerts) else o.alerts,
            o.commands)
  }

  /** The model after the pending lines of the files before `f`. */
  function UpTo(m: Model, pend: Logs, f: File): Model
    decreases Rank(f)
  {
    match f
    case CheckpointAuditRef => m
    case IngestionHealth => Applied(m, CheckpointAuditRef, pend.checkpoints)
    case IngestionSummary => Applied(UpTo(m, pend, IngestionHealth), IngestionHealth, pend.health)
    case OperationalAlert => Applied(UpTo(m, pend, IngestionSummary), IngestionSummary, pend.summaries)
    case RecoveryCommandAudit => Applied(UpTo(m, pend, OperationalAlert), OperationalAlert, pend.alerts)
  }

  /** The model after a complete sync. */
  function Synced(m: Model, pend: Logs): Model {
    Applied(UpTo(m, pend, RecoveryCommandAudit), RecoveryCommandAudit, pend.commands)
  }

  /**
    * A sync that dies in a file has finished the files before it and stored their offsets, and
    * leaves some model behind; one that stops there leaves the file untouched.
    */
  datatype Step =
    | Append(file: File, line: Line)
    | Sync
    | Die(file: File, left: Model)
    | Stop(file: File)

  function Next(st: Machine, step: Step): Machine {
    match step
    case Append(f, line) => st.(logs := With(st.logs, f, Of(st.logs, f) + [line]))
    case Sync =>
      var offsets := Committed(st, RecoveryCommandAudit);
      Machine(st.logs, offsets.(commands := Later(offsets.commands, st.logs.commands)), Synced(st.model, Pending(st)))
    case Die(f, left) => Machine(st.logs, Committed(st, f), left)
    case Stop(f) => Machine(st.logs, Committed(st, f), UpTo(st.model, Pending(st), f))
  }

  function After(st: Machine, steps: seq<Step>): Machine {
    if steps == [] then st else Next(After(st, steps[..|steps| - 1]), steps[|steps| - 1])
  }

  /** A death leaves behind what the writes made until then can have left. */
  ghost predicate CanHappen(st: Machine, step: Step) {
    step.Die? ==> LeftBehind(UpTo(st.model, Pending(st), step.file), step.file, Of(Pending(st), step.file), step.left)
  }

  ghost predicate ValidRun(st: Machine, steps: seq<Step>) {
    steps != [] ==>
      ValidRun(st, steps[..|steps| - 1]) && CanHappen(After(st, steps[..|steps| - 1]), steps[|steps| - 1])
  }

  /** Every sync that died had stopped in time instead. */
  function Stopped(steps: seq<Step>): seq<Step> {
    if steps == [] then []
    else
      var last := steps[|steps| - 1];
      Stopped(steps[..|steps| - 1]) + [if last.Die? then Stop(last.file) else last]
  }

  /** Every sync that died had never been begun. */
  function Removed(steps: seq<Step>): seq<Step> {
    Filter(steps, (step: Step) => !step.Die?)
  }

  ghost predicate Sane(st: Machine) {
    && st.offsets.checkpoints <= |st.logs.checkpoints| && st.offsets.health <= |st.logs.health|
    && st.offsets.summaries <= |st.logs.summaries| && st.offsets.alerts <= |st.logs.alerts|
    && st.offsets.commands <= |st.logs.commands|
  }

  lemma {:induction false} StaysSane(st: Machine, steps: seq<Step>)
    requires Sane(st)
    ensures Sane(After(st, steps))
  {
    if steps != [] {
      StaysSane(st, steps[..|steps| - 1]);
    }
  }

  /** The lines of the files before `f` are no longer pending. */
  function Rest(pend: Logs, f: File): Logs {
    var r := Rank(f);
    PerFile(if 0 < r then [] else pend.checkpoints, if 1 < r then [] else pend.health,
            if 2 < r then [] else pend.summaries, if 3 < r then [] else pend.alerts, pend.commands)
  }

  function OneLine(f: File, line: Line): Logs {
    With(NO_LINES, f, [line])
  }

  lemma BeyondMoves(lines: seq<Line>, offset: nat, line: Line)
    requires offset <= |lines|
    ensures Beyond(lines + [line], offset) == Beyond(lines, offset) + [line]
    ensures Beyond(lines, Later(offset, lines)) == []
    ensures Beyond(lines, offset) + [] == Beyond(lines, offset)
  {
  }

  lemma PendingAfter(st: Machine, step: Step)
    requires Sane(st)
    ensures step.Append? ==> Pending(Next(st, step)) == Joined(Pending(st), OneLine(step.file, step.line))
    ensures step.Sync? ==> Pending(Next(st, step)) == NO_LINES
    ensures step.Die? || step.Stop? ==> Pending(Next(st, step)) == Rest(Pending(st), step.file)
  {
    var line := if step.Append? then step.line else None;
    BeyondMoves(st.logs.checkpoints, st.offsets.checkpoints, line);
    BeyondMoves(st.logs.health, st.offsets.health, line);
    BeyondMoves(st.logs.summaries, st.offsets.summaries, line);
    BeyondMoves(st.logs.alerts, st.offsets.alerts, line);
    BeyondMoves(st.logs.commands, st.offsets.commands, line);
  }

  /**
    * Whatever is appended, a complete sync makes the two models equal; or whatever but health
    * reports, when it is `late` for them.
    */
  ghost predicate Alike(d: Model, pendD: Logs, e: Model, pendE: Logs, late: bool) {
    forall more :: AlikeWith(d, pendD, e, pendE, late, more)
  }

  ghost predicate AlikeWith(d: Model, pendD: Logs, e: Model, pendE: Logs, late: bool, more: Logs) {
    (late ==> more.health == []) ==> Synced(d, Joined(pendD, more)) == Synced(e, Joined(pendE, more))
  }

  /** Which files a table depends on. */
  lemma SyncedTables(m: Model, pend: Logs)
    ensures var reported := Reported(m, pend.health, pend.summaries);
            Synced(m, pend)
              == Model(reported.runs, reported.streams,
                       Applied(m, OperationalAlert, pend.alerts).alerts,
                       Applied(m, CheckpointAuditRef, pend.checkpoints).checkpoints)
  {
  }

  /** What a death left behind is made up for by the next complete sync, whatever was appended since. */
  lemma LeftBehindMadeUp(m: Model, left: Model, f: File, pend: Logs, more: Logs)
    requires Rest(pend, f) == pend && LeftBehind(m, f, Of(pend, f), left)
    ensures Synced(left, Joined(pend, more)) == Synced(m, Joined(pend, more))
  {
    var all := Joined(pend, more);
    match f {
      case CheckpointAuditRef =>
        CheckpointsMadeUp(m, left, pend.checkpoints, more.checkpoints);
      case IngestionHealth =>
        HealthMadeUp(m, left, pend.health, more.health);
      case IngestionSummary =>
        SummariesMadeUp(m, left, more.health, pend.summaries, more.summaries);
        assert all.health == more.health;
      case OperationalAlert =>
        AlertsMadeUp(m, left, pend.alerts, more.alerts);
      case RecoveryCommandAudit =>
    }
    SyncedTables(left, all);
    SyncedTables(m, all);
  }

  lemma CheckpointsMadeUp(m: Model, left: Model, lines: seq<Line>, more: seq<Line>)
    requires LeftBehind(m, CheckpointAuditRef, lines, left)
    ensures Applied(left, CheckpointAuditRef, lines + more) == Applied(m, CheckpointAuditRef, lines + more)
  {
    var ws := WritesOf(CheckpointWrites, lines);
    forall key ensures MakesUp(PutCheckpoint, PutCheckpoint, Own([], key), Own(ws, key)) {
      CheckpointsMakeUp(Own(ws, key));
    }
    WritesAppend(CheckpointWrites, lines, more);
    TableMakesUp(PutCheckpoint, PutCheckpoint, m.checkpoints, left.checkpoints, [], ws,
      WritesOf(CheckpointWrites, more));
  }

  lemma AlertsMadeUp(m: Model, left: Model, lines: seq<Line>, more: seq<Line>)
    requires LeftBehind(m, OperationalAlert, lines, left)
    ensures Applied(left, OperationalAlert, lines + more) == Applied(m, OperationalAlert, lines + more)
  {
    var ws := WritesOf(AlertWrites, lines);
    forall key ensures MakesUp(InsertAlert, InsertAlert, Own([], key), Own(ws, key)) {
      AlertsMakeUp(Own(ws, key));
    }
    WritesAppend(AlertWrites, lines, more);
    TableMakesUp(InsertAlert, InsertAlert, m.alerts, left.alerts, [], ws, WritesOf(AlertWrites, more));
  }

  lemma HealthMadeUp(m: Model, left: Model, lines: seq<Line>, more: seq<Line>)
    requires LeftBehind(m, IngestionHealth, lines, left)
    ensures Applied(left, IngestionHealth, lines + more) == Applied(m, IngestionHealth, lines + more)
  {
    var runs, streams := WritesOf(RunWrites, lines), WritesOf(HealthStreams, lines);
    forall key ensures MakesUp(HealthRun, HealthRun, Own([], key), Own(runs, key)) {
      HealthRunsMakeUp(Own(runs, key));
    }
    forall key ensures MakesUp(HealthStream, HealthStream, Own([], key), Own(streams, key)) {
      OwnScopes(lines, key);
      HealthStreamsMakeUp(Own(streams, key), key);
    }
    WritesAppend(RunWrites, lines, more);
    WritesAppend(HealthStreams, lines, more);
    TableMakesUp(HealthRun, HealthRun, m.runs, left.runs, [], runs, WritesOf(RunWrites, more));
    TableMakesUp(HealthStream, HealthStream, m.streams, left.streams, [], streams, WritesOf(HealthStreams, more));
  }

  /** For the summaries even with health reports appended in the meantime. */
  lemma SummariesMadeUp(m: Model, left: Model, health: seq<Line>, lines: seq<Line>, more: seq<Line>)
    requires LeftBehind(m, IngestionSummary, lines, left)
    ensures Applied(Applied(left, IngestionHealth, health), IngestionSummary, lines + more)
         == Applied(Applied(m, IngestionHealth, health), IngestionSummary, lines + more)
  {
    var runs, streams := WritesOf(RunWrites, lines), WritesOf(SummaryStreams, lines);
    var runsG, streamsG := WritesOf(RunWrites, health), WritesOf(HealthStreams, health);
    forall key ensures MakesUp(HealthRun, SummaryRun, Own(runsG, key), Own(runs, key)) {
      SummaryRunsMakeUp(Own(runsG, key), Own(runs, key));
    }
    forall key ensures MakesUp(HealthStream, SummaryStream, Own(streamsG, key), Own(streams, key)) {
      SummaryStreamsMakeUp(Own(streamsG, key), Own(streams, key));
    }
    WritesAppend(RunWrites, lines, more);
    WritesAppend(SummaryStreams, lines, more);
    TableMakesUp(HealthRun, SummaryRun, m.runs, left.runs, runsG, runs, WritesOf(RunWrites, more));
    TableMakesUp(HealthStream, SummaryStream, m.streams, left.streams, streamsG, streams,
      WritesOf(SummaryStreams, more));
  }

  /** Too late for health reports: the pending summaries have been committed. */
  predicate TooLate(pend: Logs, f: File) {
    Rank(IngestionSummary) < Rank(f) && pend.summaries != []
  }

  /** Stopping and going on later is one sync, unless a health report comes after committed summaries. */
  lemma StopThenSync(m: Model, pend: Logs, f: File, more: Logs)
    requires TooLate(pend, f) ==> more.health == []
    ensures Synced(UpTo(m, pend, f), Joined(Rest(pend, f), more)) == Synced(m, Joined(pend, more))
  {
    ReportsAfterStop(m, pend, f, more);
    OthersAfterStop(m, pend, f, more);
    SyncedTables(UpTo(m, pend, f), Joined(Rest(pend, f), more));
    SyncedTables(m, Joined(pend, more));
  }

  /** What each table has received when a sync stops. */
  lemma UpToTables(m: Model, pend: Logs, f: File)
    ensures UpTo(m, pend, f).checkpoints
      == if 0 < Rank(f) then Applied(m, CheckpointAuditRef, pend.checkpoints).checkpoints else m.checkpoints
    ensures UpTo(m, pend, f).alerts
      == if 3 < Rank(f) then Applied(m, OperationalAlert, pend.alerts).alerts else m.alerts
  {
  }

  lemma OthersAfterStop(m: Model, pend: Logs, f: File, more: Logs)
    ensures var at, rest, all := UpTo(m, pend, f), Joined(Rest(pend, f), more), Joined(pend, more);
            && Applied(at, CheckpointAuditRef, rest.checkpoints).checkpoints
               == Applied(m, CheckpointAuditRef, all.checkpoints).checkpoints
            && Applied(at, OperationalAlert, rest.alerts).alerts == Applied(m, OperationalAlert, all.alerts).alerts
  {
    UpToTables(m, pend, f);
    AppliedAppend(m, CheckpointAuditRef, pend.checkpoints, more.checkpoints);
    AppliedAppend(m, OperationalAlert, pend.alerts, more.alerts);
    assert [] + more.checkpoints == more.checkpoints && [] + more.alerts == more.alerts;
  }

  function Reported(m: Model, health: seq<Line>, summaries: seq<Line>): Model {
    Applied(Applied(m, IngestionHealth, health), IngestionSummary, summaries)
  }

  ghost predicate SameReports(a: Model, b: Model) {
    a.runs == b.runs && a.streams == b.streams
  }

  lemma ReportsAfterStop(m: Model, pend: Logs, f: File, more: Logs)
    requires TooLate(pend, f) ==> more.health == []
    ensures var rest := Joined(Rest(pend, f), more);
            SameReports(Reported(UpTo(m, pend, f), rest.health, rest.summaries),
                        Reported(m, pend.health + more.health, pend.summaries + more.summaries))
  {
    assert [] + more.health == more.health && [] + more.summaries == more.summaries;
    if Rank(f) <= 1 {
      assert SameReports(UpTo(m, pend, f), m);
    } else {
      AppliedAppend(m, IngestionHealth, pend.health, more.health);
      var h := Applied(m, IngestionHealth, pend.health);
      if Rank(f) == 2 {
        assert SameReports(UpTo(m, pend, f), h);
      } else {
        assert SameReports(UpTo(m, pend, f), Applied(h, IngestionSummary, pend.summaries));
        if pend.summaries == [] {
          assert [] + more.summaries == more.summaries;
          NothingApplied(h, IngestionSummary);
        } else {
          NothingApplied(Applied(h, IngestionSummary, pend.summaries), IngestionHealth);
          NothingApplied(h, IngestionHealth);
          AppliedAppend(h, IngestionSummary, pend.summaries, more.summaries);
        }
      }
    }
  }

  lemma NothingApplied(m: Model, f: File)
    ensures Applied(m, f, []) == m
  {
  }

  /** Two models that are alike stay so when both stop at the same file. */
  lemma AlikeStop(d: Model, e: Model, pend: Logs, f: File)
    requires Alike(d, pend, e, pend, false)
    ensures Alike(UpTo(d, pend, f), Rest(pend, f), UpTo(e, pend, f), Rest(pend, f), false)
  {
    forall more ensures AlikeWith(UpTo(d, pend, f), Rest(pend, f), UpTo(e, pend, f), Rest(pend, f), false, more) {
      assert AlikeWith(d, pend, e, pend, false, more);
      match f {
        case OperationalAlert => AlikeBeforeAlerts(d, e, pend, more);
        case RecoveryCommandAudit => AlikeNow(d, pend, e, pend, false);
        case _ =>
          StopThenSync(d, pend, f, more);
          StopThenSync(e, pend, f, more);
      }
    }
  }

  lemma AlertsAside(m: Model, alerts: map<Payload, Alert>, pend: Logs)
    ensures Synced(m.(alerts := alerts), pend)
         == Synced(m, pend).(alerts := TouchAll(InsertAlert, alerts, WritesOf(AlertWrites, pend.alerts)))
  {
    SyncedTables(m, pend);
    SyncedTables(m.(alerts := alerts), pend);
  }

  /** Before the alerts, all but the alerts is as after the complete sync. */
  lemma BeforeAlerts(m: Model, pend: Logs, more: Logs)
    ensures var f := OperationalAlert;
            Synced(UpTo(m, pend, f), Joined(Rest(pend, f), more))
              == Synced(Synced(m, pend), more).(alerts := Synced(m, Joined(pend, more)).alerts)
  {
    var f := OperationalAlert;
    assert UpTo(m, pend, f) == Synced(m, pend).(alerts := m.alerts) by {
      SyncedTables(m, pend);
    }
    RestJoined(pend, more);
    AlertsAside(Synced(m, pend), m.alerts, Joined(Rest(pend, f), more));
    AlertsAside(Synced(m, pend), Synced(m, pend).alerts, more);
    assert Synced(Synced(m, pend), Joined(Rest(pend, f), more)).(alerts := map[])
      == Synced(Synced(m, pend), more).(alerts := map[]) by {
      SyncedTables(Synced(m, pend), Joined(Rest(pend, f), more));
      SyncedTables(Synced(m, pend), more);
    }
    SyncedTables(m, Joined(pend, more));
  }

  lemma RestJoined(pend: Logs, more: Logs)
    ensures Joined(Rest(pend, OperationalAlert), more)
         == more.(alerts := pend.alerts + more.alerts, commands := pend.commands + more.commands)
  {
    assert [] + more.checkpoints == more.checkpoints && [] + more.health == more.health
      && [] + more.summaries == more.summaries;
  }

  lemma AlikeBeforeAlerts(d: Model, e: Model, pend: Logs, more: Logs)
    requires Alike(d, pend, e, pend, false)
    ensures var f := OperationalAlert;
            AlikeWith(UpTo(d, pend, f), Rest(pend, f), UpTo(e, pend, f), Rest(pend, f), false, more)
  {
    assert AlikeWith(d, pend, e, pend, false, more);
    AlikeNow(d, pend, e, pend, false);
    BeforeAlerts(d, pend, more);
    BeforeAlerts(e, pend, more);
  }

  lemma AlikeNow(d: Model, pendD: Logs, e: Model, pendE: Logs, late: bool)
    requires Alike(d, pendD, e, pendE, late)
    ensures Synced(d, pendD) == Synced(e, pendE)
  {
    assert AlikeWith(d, pendD, e, pendE, late, NO_LINES);
    NothingJoined(pendD);
    NothingJoined(pendE);
  }

  lemma NothingJoined(pend: Logs)
    ensures Joined(pend, NO_LINES) == pend
  {
    assert pend.checkpoints + [] == pend.checkpoints && pend.health + [] == pend.health;
    assert pend.summaries + [] == pend.summaries && pend.alerts + [] == pend.alerts
      && pend.commands + [] == pend.commands;
  }

  /** Two machines a complete sync makes equal, now or later, if it is not too late for what comes in between. */
  ghost predicate Converge(d: Machine, e: Machine, late: bool) {
    Sane(d) && Sane(e) && d.logs == e.logs && Alike(d.model, Pending(d), e.model, Pending(e), late)
  }

  lemma SyncReadsAll(st: Machine)
    requires Sane(st)
    ensures Next(st, Sync)
         == Machine(st.logs,
                    PerFile(|st.logs.checkpoints|, |st.logs.health|, |st.logs.summaries|, |st.logs.alerts|,
                            |st.logs.commands|),
                    Synced(st.model, Pending(st)))
  {
  }

  lemma ConvergeSync(d: Machine, e: Machine, late: bool)
    requires Converge(d, e, late)
    ensures Next(d, Sync) == Next(e, Sync) && Converge(Next(d, Sync), Next(e, Sync), false)
  {
    SyncReadsAll(d);
    SyncReadsAll(e);
    AlikeNow(d.model, Pending(d), e.model, Pending(e), late);
    AlikeSelf(Next(d, Sync).model, Pending(Next(d, Sync)));
  }

  lemma AlikeSelf(m: Model, pend: Logs)
    ensures Alike(m, pend, m, pend, false)
  {
  }

  lemma ConvergeAppend(d: Machine, e: Machine, step: Step, late: bool)
    requires Converge(d, e, late) && step.Append? && (late ==> step.file != IngestionHealth)
    ensures Converge(Next(d, step), Next(e, step), late)
  {
    PendingAfter(d, step);
    PendingAfter(e, step);
    var line := OneLine(step.file, step.line);
    var d', e' := Next(d, step), Next(e, step);
    forall more ensures AlikeWith(d'.model, Pending(d'), e'.model, Pending(e'), late, more) {
      assert AlikeWith(d.model, Pending(d), e.model, Pending(e), late, Joined(line, more));
      JoinedTwice(Pending(d), line, more);
      JoinedTwice(Pending(e), line, more);
      assert late && more.health == [] ==> Joined(line, more).health == [];
    }
  }

  lemma JoinedTwice(a: Logs, b: Logs, c: Logs)
    ensures Joined(Joined(a, b), c) == Joined(a, Joined(b, c))
  {
    AppendAssociative(a.checkpoints, b.checkpoints, c.checkpoints);
    AppendAssociative(a.health, b.health, c.health);
    AppendAssociative(a.summaries, b.summaries, c.summaries);
    AppendAssociative(a.alerts, b.alerts, c.alerts);
    AppendAssociative(a.commands, b.commands, c.commands);
  }

  /** Dying in a file is like stopping before it. */
  lemma DeathIsStop(d: Machine, step: Step)
    requires Sane(d) && step.Die? && CanHappen(d, step)
    ensures Converge(Next(d, step), Next(d, Stop(step.file)), false)
  {
    var f, pend := step.file, Pending(d);
    PendingAfter(d, step);
    PendingAfter(d, Stop(f));
    var d', e' := Next(d, step), Next(d, Stop(f));
    assert Of(Rest(pend, f), f) == Of(pend, f);
    forall more ensures AlikeWith(d'.model, Pending(d'), e'.model, Pending(e'), false, more) {
      LeftBehindMadeUp(UpTo(d.model, pend, f), step.left, f, Rest(pend, f), more);
    }
  }

  lemma ConvergeTrans(a: Machine, b: Machine, c: Machine, early: bool, late: bool)
    requires Converge(a, b, early) && Converge(b, c, late)
    ensures Converge(a, c, early || late)
  {
    var either := early || late;
    forall more ensures AlikeWith(a.model, Pending(a), c.model, Pending(c), either, more) {
      assert AlikeWith(a.model, Pending(a), b.model, Pending(b), early, more);
      assert AlikeWith(b.model, Pending(b), c.model, Pending(c), late, more);
    }
  }

  /** Stopping is like not having begun, except that it can be too late for health reports then. */
  lemma StopIsNothing(d: Machine, f: File)
    requires Sane(d)
    ensures Converge(Next(d, Stop(f)), d, TooLate(Pending(d), f))
  {
    PendingAfter(d, Stop(f));
    var d', pend := Next(d, Stop(f)), Pending(d);
    forall more ensures AlikeWith(d'.model, Pending(d'), d.model, pend, TooLate(pend, f), more) {
      if TooLate(pend, f) ==> more.health == [] {
        StopThenSync(d.model, pend, f, more);
      }
    }
  }

  lemma ConvergeStop(d: Machine, e: Machine, f: File)
    requires Converge(d, e, false) && d.offsets == e.offsets
    ensures Converge(Next(d, Stop(f)), Next(e, Stop(f)), false)
  {
    PendingAfter(d, Stop(f));
    PendingAfter(e, Stop(f));
    AlikeStop(d.model, e.model, Pending(d), f);
  }

  /** A machine and one whose dying syncs all stopped in time converge, with the same offsets. */
  lemma {:induction false} DeathsAreStops(st: Machine, steps: seq<Step>)
    requires Sane(st) && ValidRun(st, steps)
    ensures Converge(After(st, steps), After(st, Stopped(steps)), false)
    ensures After(st, steps).offsets == After(st, Stopped(steps)).offsets
  {
    if steps != [] {
      var front, last := steps[..|steps| - 1], steps[|steps| - 1];
      DeathsAreStops(st, front);
      var d, e := After(st, front), After(st, Stopped(front));
      StoppedLast(st, steps);
      match last {
        case Append(_, _) => ConvergeAppend(d, e, last, false);
        case Sync => ConvergeSync(d, e, false);
        case Stop(f) => ConvergeStop(d, e, f);
        case Die(f, _) =>
          DeathIsStop(d, last);
          ConvergeStop(d, e, f);
          ConvergeTrans(Next(d, last), Next(d, Stop(f)), Next(e, Stop(f)), false, false);
      }
    }
  }

  lemma StoppedLast(st: Machine, steps: seq<Step>)
    requires steps != []
    ensures var last := steps[|steps| - 1];
            After(st, Stopped(steps))
              == Next(After(st, Stopped(steps[..|steps| - 1])), if last.Die? then Stop(last.file) else last)
  {
    var stopped := Stopped(steps);
    assert stopped[..|stopped| - 1] == Stopped(steps[..|steps| - 1]);
  }

  /** After a complete sync, a sync that died had the effect of the files it finished, and no other. */
  lemma DeadSyncsOnlyFinishFiles(st: Machine, steps: seq<Step>)
    requires Sane(st) && ValidRun(st, steps)
    ensures After(st, steps + [Sync]) == After(st, Stopped(steps) + [Sync])
  {
    DeathsAreStops(st, steps);
    ConvergeSync(After(st, steps), After(st, Stopped(steps)), false);
    AfterNext(st, steps, Sync);
    AfterNext(st, Stopped(steps), Sync);
  }

  lemma AfterNext(st: Machine, steps: seq<Step>, step: Step)
    ensures After(st, steps + [step]) == Next(After(st, steps), step)
    ensures ValidRun(st, steps + [step]) <==> ValidRun(st, steps) && CanHappen(After(st, steps), step)
  {
    assert (steps + [step])[..|steps|] == steps;
  }

  /** Since the last complete sync one died that had committed summaries. */
  predicate LateDeath(st: Machine, steps: seq<Step>) {
    steps != [] &&
      var front, last := steps[..|steps| - 1], steps[|steps| - 1];
      match last
      case Sync => false
      case Die(f, _) => LateDeath(st, front) || TooLate(Pending(After(st, front)), f)
      case _ => LateDeath(st, front)
  }

  /** Syncs complete or die, and no health report comes between such a death and the next complete sync. */
  predicate InTime(st: Machine, steps: seq<Step>) {
    steps != [] ==>
      var front, last := steps[..|steps| - 1], steps[|steps| - 1];
      && InTime(st, front) && !last.Stop?
      && (last.Append? && last.file == IngestionHealth ==> !LateDeath(st, front))
  }

  lemma {:induction false} DeathsVanish(st: Machine, steps: seq<Step>)
    requires Sane(st) && ValidRun(st, steps) && InTime(st, steps)
    ensures Converge(After(st, steps), After(st, Removed(steps)), LateDeath(st, steps))
  {
    if steps == [] {
      AlikeSelf(st.model, Pending(st));
    } else {
      var front, last := steps[..|steps| - 1], steps[|steps| - 1];
      DeathsVanish(st, front);
      var d, e, late := After(st, front), After(st, Removed(front)), LateDeath(st, front);
      RemovedLast(st, steps);
      match last {
        case Append(_, _) => ConvergeAppend(d, e, last, late);
        case Sync => ConvergeSync(d, e, late);
        case Die(f, _) =>
          StaysSane(st, front);
          DeathIsStop(d, last);
          StopIsNothing(d, f);
          ConvergeTrans(Next(d, last), Next(d, Stop(f)), d, false, TooLate(Pending(d), f));
          ConvergeTrans(Next(d, last), d, e, TooLate(Pending(d), f), late);
      }
    }
  }

  lemma RemovedLast(st: Machine, steps: seq<Step>)
    requires steps != []
    ensures var front, last := steps[..|steps| - 1], steps[|steps| - 1];
            After(st, Removed(steps))
              == if last.Die? then After(st, Removed(front)) else Next(After(st, Removed(front)), last)
  {
    var front, last := steps[..|steps| - 1], steps[|steps| - 1];
    FrontLast(steps);
    FilterAppend(front, [last], (step: Step) => !step.Die?);
    assert [last][1..] == [];
    if last.Die? {
      assert Removed(steps) == Removed(front);
    } else {
      assert Removed(steps) == Removed(front) + [last];
      AfterNext(st, Removed(front), last);
    }
  }

  /**
    * After any run of appends, syncs and syncs that died anywhere, if no health report came between a
    * death behind newly committed summaries and the next complete sync, a complete sync leaves what
    * it would have left had the dead syncs never been begun.
    */
  lemma DeadSyncsAreHarmless(st: Machine, steps: seq<Step>)
    requires Sane(st) && ValidRun(st, steps) && InTime(st, steps)
    ensures After(st, steps + [Sync]) == After(st, Removed(steps) + [Sync])
  {
    DeathsVanish(st, steps);
    ConvergeSync(After(st, steps), After(st, Removed(steps)), LateDeath(st, steps));
    AfterNext(st, steps, Sync);
    AfterNext(st, Removed(steps), Sync);
  }

  /** Syncs complete or die in `f`. */
  ghost predicate DiesOnlyIn(steps: seq<Step>, f: File) {
    forall i :: 0 <= i < |steps| ==> !steps[i].Stop? && (steps[i].Die? ==> steps[i].file == f)
  }

  /** No run in which syncs die in `f` can be told from the one without them. */
  ghost predicate Harmless(f: File) {
    forall steps :: ValidRun(START, steps) && DiesOnlyIn(steps, f) ==> SameInTheEnd(steps)
  }

  predicate SameInTheEnd(steps: seq<Step>) {
    After(START, steps + [Sync]) == After(START, Removed(steps) + [Sync])
  }

  lemma {:induction false} EarlyDeathsInTime(steps: seq<Step>, f: File)
    requires DiesOnlyIn(steps, f) && Rank(f) <= Rank(IngestionSummary)
    ensures InTime(START, steps) && !LateDeath(START, steps)
  {
    if steps != [] {
      EarlyDeathsInTime(steps[..|steps| - 1], f);
    }
  }

  /** Dying in a file is harmless exactly when the file is not read after the summaries. */
  lemma HarmlessUpToSummaries(f: File)
    ensures Harmless(f) <==> Rank(f) <= Rank(IngestionSummary)
  {
    if Rank(f) <= Rank(IngestionSummary) {
      forall steps | ValidRun(START, steps) && DiesOnlyIn(steps, f) ensures SameInTheEnd(steps) {
        EarlyDeathsInTime(steps, f);
        DeadSyncsAreHarmless(START, steps);
      }
    } else {
      LateHealth(f);
      assert !SameInTheEnd(LateHealthRun(f));
    }
  }

  const BARE := Payload(Some("r"), None, None, None, None, [], [], None, None, None, None, None, None, None, None,
    None, None, None)

  const SUMMARY := BARE.(recordedAt := Some("1"))

  const HEALTH := BARE.(recordedAt := Some("2"))

  const SUMMARIZED := UpTo(START.model, OneLine(IngestionSummary, Some(SUMMARY)), OperationalAlert)

  /** A summary, a sync that dies at the beginning of `f`, and a health report of the same run. */
  function LateHealthRun(f: File): seq<Step> {
    [
      Append(IngestionSummary, Some(SUMMARY)),
      Die(f, SUMMARIZED),
      Append(IngestionHealth, Some(HEALTH))
    ]
  }

  /** Behind the summaries the health report has the last word with the dead sync, without it the summary. */
  lemma LateHealth(f: File)
    requires Rank(IngestionSummary) < Rank(f)
    ensures ValidRun(START, LateHealthRun(f)) && DiesOnlyIn(LateHealthRun(f), f) && !SameInTheEnd(LateHealthRun(f))
  {
    DeadRun(f);
    CleanRun(f);
    DiesOnce(f);
  }

  lemma DiesOnce(f: File)
    ensures DiesOnlyIn(LateHealthRun(f), f)
  {
  }

  lemma RunOfTwo(st: Machine, a: Step, b: Step)
    ensures After(st, [a, b]) == Next(Next(st, a), b)
    ensures ValidRun(st, [a, b]) <==> CanHappen(st, a) && CanHappen(Next(st, a), b)
  {
    AfterNext(st, [], a);
    AfterNext(st, [a], b);
    assert [] + [a] == [a] && [a] + [b] == [a, b];
  }

  lemma RunOfThree(st: Machine, a: Step, b: Step, c: Step)
    ensures After(st, [a, b, c]) == Next(Next(Next(st, a), b), c)
    ensures ValidRun(st, [a, b, c]) <==> ValidRun(st, [a, b]) && CanHappen(Next(Next(st, a), b), c)
  {
    RunOfTwo(st, a, b);
    AfterNext(st, [a, b], c);
    assert [a, b] + [c] == [a, b, c];
  }

  const REPORTED := Next(START, Append(IngestionSummary, Some(SUMMARY)))

  lemma ReportedPending()
    ensures Sane(REPORTED) && Pending(REPORTED) == OneLine(IngestionSummary, Some(SUMMARY))
  {
    PendingAfter(START, Append(IngestionSummary, Some(SUMMARY)));
  }

  lemma DeadRun(f: File)
    requires Rank(IngestionSummary) < Rank(f)
    ensures ValidRun(START, LateHealthRun(f))
    ensures LastWord(After(START, LateHealthRun(f) + [Sync]).model, "2")
  {
    var steps := LateHealthRun(f);
    RunOfTwo(START, steps[0], steps[1]);
    RunOfThree(START, steps[0], steps[1], steps[2]);
    DiesBehindSummary(f);
    var died := Next(REPORTED, steps[1]);
    HealthPending(died);
    LastReported(died.model, Pending(Next(died, steps[2])));
    AfterNext(START, steps, Sync);
  }

  lemma HealthPending(died: Machine)
    requires Sane(died) && Pending(died) == NO_LINES
    ensures Pending(Next(died, Append(IngestionHealth, Some(HEALTH)))) == OneLine(IngestionHealth, Some(HEALTH))
  {
    PendingAfter(died, Append(IngestionHealth, Some(HEALTH)));
  }

  lemma DiesBehindSummary(f: File)
    requires Rank(IngestionSummary) < Rank(f)
    ensures var died := Next(REPORTED, Die(f, SUMMARIZED));
            CanHappen(REPORTED, Die(f, SUMMARIZED)) && Sane(died) && Pending(died) == NO_LINES
  {
    ReportedPending();
    PendingAfter(REPORTED, Die(f, SUMMARIZED));
    SummarizedUpTo(f);
    LinesLeftBehind(SUMMARIZED, f, [], 0);
    NothingApplied(SUMMARIZED, f);
  }

  lemma SummarizedUpTo(f: File)
    requires Rank(IngestionSummary) < Rank(f)
    ensures UpTo(START.model, OneLine(IngestionSummary, Some(SUMMARY)), f) == SUMMARIZED
  {
    NothingApplied(SUMMARIZED, OperationalAlert);
  }

  predicate LastWord(m: Model, at: string) {
    "r" in m.runs && m.runs["r"].updatedAt == at
  }

  lemma LastReported(m: Model, pend: Logs)
    ensures pend == OneLine(IngestionHealth, Some(HEALTH)) ==> LastWord(Synced(m, pend), "2")
    ensures pend == PerFile([], [Some(HEALTH)], [Some(SUMMARY)], [], []) ==> LastWord(Synced(m, pend), "1")
  {
    SyncedTables(m, pend);
    HealthLine(m, HEALTH);
    var reported := Applied(m, IngestionHealth, [Some(HEALTH)]);
    NothingApplied(reported, IngestionSummary);
    SummaryLine(reported, SUMMARY);
  }

  lemma CleanSteps(f: File)
    ensures Removed(LateHealthRun(f)) == [LateHealthRun(f)[0], LateHealthRun(f)[2]]
  {
    var alive := (step: Step) => !step.Die?;
    FilterAppend([LateHealthRun(f)[0], LateHealthRun(f)[1]], [LateHealthRun(f)[2]], alive);
    FilterAppend([LateHealthRun(f)[0]], [LateHealthRun(f)[1]], alive);
    FilterOne(LateHealthRun(f)[0], alive);
    FilterOne(LateHealthRun(f)[1], alive);
    FilterOne(LateHealthRun(f)[2], alive);
    assert [LateHealthRun(f)[0]] + [LateHealthRun(f)[1]] == [LateHealthRun(f)[0], LateHealthRun(f)[1]];
    assert [LateHealthRun(f)[0], LateHealthRun(f)[1]] + [LateHealthRun(f)[2]] == LateHealthRun(f);
  }

  lemma CleanRun(f: File)
    ensures LastWord(After(START, Removed(LateHealthRun(f)) + [Sync]).model, "1")
  {
    CleanSteps(f);
    var clean := [LateHealthRun(f)[0], LateHealthRun(f)[2]];
    var two := Next(REPORTED, clean[1]);
    RunOfTwo(START, clean[0], clean[1]);
    ReportedPending();
    PendingAfter(REPORTED, clean[1]);
    assert Pending(two) == PerFile([], [Some(HEALTH)], [Some(SUMMARY)], [], []);
    LastReported(START.model, Pending(two));
    AfterNext(START, clean, Sync);
  }

  /** No step of the builder changes an alert that is already there, so no acknowledgement is lost. */
  lemma {:induction false} AlertsKept(st: Machine, steps: seq<Step>, id: Payload)
    requires ValidRun(st, steps) && id in st.model.alerts
    ensures id in After(st, steps).model.alerts && After(st, steps).model.alerts[id] == st.model.alerts[id]
  {
    if steps != [] {
      var front, last := steps[..|steps| - 1], steps[|steps| - 1];
      AlertsKept(st, front, id);
      AlertKeptNext(After(st, front), last, id);
    }
  }

  lemma {:induction false} InsertKeeps(alert: Alert, ws: seq<Payload>)
    ensures Fold(InsertAlert, Some(alert), ws) == Some(alert)
  {
    if ws != [] {
      InsertKeeps(alert, ws[..|ws| - 1]);
    }
  }

  /** Inserting never changes what is there. */
  lemma AppliedKeepsAlert(m: Model, lines: seq<Line>, id: Payload)
    requires id in m.alerts
    ensures Lookup(Applied(m, OperationalAlert, lines).alerts, id) == Some(m.alerts[id])
  {
    RowAfter(InsertAlert, m.alerts, WritesOf(AlertWrites, lines), id);
    InsertKeeps(m.alerts[id], Own(WritesOf(AlertWrites, lines), id));
  }

  lemma LeftBehindKeepsAlert(m: Model, lines: seq<Line>, left: Model, id: Payload)
    requires LeftBehind(m, OperationalAlert, lines, left) && id in m.alerts
    ensures Lookup(left.alerts, id) == Some(m.alerts[id])
  {
    var ws := WritesOf(AlertWrites, lines);
    assert RowPartly(InsertAlert, m.alerts, ws, left.alerts, id);
    var own := Own(ws, id);
    var n :| 0 <= n <= |own| && Lookup(left.alerts, id) == Fold(InsertAlert, Lookup(m.alerts, id), own[..n]);
    InsertKeeps(m.alerts[id], own[..n]);
  }

  lemma AlertKeptNext(st: Machine, step: Step, id: Payload)
    requires CanHappen(st, step) && id in st.model.alerts
    ensures Lookup(Next(st, step).model.alerts, id) == Lookup(st.model.alerts, id)
  {
    var pend := Pending(st);
    AppliedKeepsAlert(st.model, pend.alerts, id);
    match step {
      case Append(_, _) =>
      case Sync => SyncedTables(st.model, pend);
      case Stop(f) => UpToTables(st.model, pend, f);
      case Die(f, left) =>
        UpToTables(st.model, pend, f);
        if f == OperationalAlert {
          LeftBehindKeepsAlert(UpTo(st.model, pend, f), pend.alerts, left, id);
        }
    }
  }
}
