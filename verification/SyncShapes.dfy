/** For which shapes of runs dying syncs are harmless, whatever the lines say (`builder.py`). */
module SyncShapes {
  import opened Sequences
  import opened ReadModel
  import opened SyncCrashes

  /** Different at most in what a line says or a death leaves behind. */
  predicate SameKind(a: Step, b: Step) {
    match a
    case Append(f, _) => b.Append? && b.file == f
    case Sync => b.Sync?
    case Die(f, _) => b.Die? && b.file == f
    case Stop(f) => b == a
  }

  predicate SameShape(a: seq<Step>, b: seq<Step>) {
    |a| == |b| && forall i :: 0 <= i < |a| ==> SameKind(a[i], b[i])
  }

  predicate NoStops(steps: seq<Step>) {
    forall i :: 0 <= i < |steps| ==> !steps[i].Stop?
  }

  /** No run of the shape can be told from the one without the dead syncs. */
  ghost predicate HarmlessShape(steps: seq<Step>) {
    forall other :: SameShape(steps, other) && ValidRun(START, other) ==> SameInTheEnd(other)
  }

  /** Dead syncs are harmless exactly when no health report comes between a late death and the next complete sync. */
  lemma HarmlessShapeIff(steps: seq<Step>)
    requires NoStops(steps)
    ensures HarmlessShape(steps) <==> InTime(START, steps)
  {
    if InTime(START, steps) {
      forall other | SameShape(steps, other) && ValidRun(START, other) ensures SameInTheEnd(other) {
        ShapeInTime(steps, other);
        DeadSyncsAreHarmless(START, other);
      }
    } else {
      var a, d, i := LateReport(steps);
      FilledShape(steps, a, i);
      FilledValid(steps, a, i);
      FilledDiffers(steps, a, d, i);
    }
  }

  // ---- being in time is a matter of shape ----

  ghost predicate SameLengths(a: Machine, b: Machine) {
    && a.offsets == b.offsets
    && |a.logs.checkpoints| == |b.logs.checkpoints| && |a.logs.health| == |b.logs.health|
    && |a.logs.summaries| == |b.logs.summaries| && |a.logs.alerts| == |b.logs.alerts|
    && |a.logs.commands| == |b.logs.commands|
  }

  lemma LengthsNext(a: Machine, b: Machine, s: Step, t: Step)
    requires SameLengths(a, b) && SameKind(s, t)
    ensures SameLengths(Next(a, s), Next(b, t))
  {
  }

  lemma {:induction false} ShapeLengths(a: seq<Step>, b: seq<Step>)
    requires SameShape(a, b)
    ensures SameLengths(After(START, a), After(START, b))
  {
    if a != [] {
      var n := |a| - 1;
      ShapeLengths(a[..n], b[..n]);
      LengthsNext(After(START, a[..n]), After(START, b[..n]), a[n], b[n]);
    }
  }

  lemma SamePendingSummaries(a: Machine, b: Machine)
    requires SameLengths(a, b)
    ensures Pending(a).summaries == [] <==> Pending(b).summaries == []
  {
  }

  lemma {:induction false} ShapeInTime(a: seq<Step>, b: seq<Step>)
    requires SameShape(a, b)
    ensures LateDeath(START, a) <==> LateDeath(START, b)
    ensures InTime(START, a) <==> InTime(START, b)
  {
    if a != [] {
      var n := |a| - 1;
      ShapeInTime(a[..n], b[..n]);
      ShapeLengths(a[..n], b[..n]);
      SamePendingSummaries(After(START, a[..n]), After(START, b[..n]));
      assert SameKind(a[n], b[n]);
    }
  }

  // ---- where a run is not in time ----

  predicate Commits(step: Step) {
    step.Sync? || ((step.Die? || step.Stop?) && Rank(IngestionSummary) < Rank(step.file))
  }

  /** A summary, a death that commits it, and a health report before the next complete sync. */
  ghost predicate LateAt(steps: seq<Step>, a: nat, d: nat, i: nat) {
    && a < d < i < |steps|
    && steps[a].Append? && steps[a].file == IngestionSummary
    && steps[d].Die? && Commits(steps[d])
    && steps[i].Append? && steps[i].file == IngestionHealth
    && (forall k :: a < k < i ==> !steps[k].Sync?)
    && (forall k :: a < k < d ==> !Commits(steps[k]))
  }

  lemma {:induction false} LateHealthAt(steps: seq<Step>) returns (i: nat)
    requires NoStops(steps) && !InTime(START, steps)
    ensures i < |steps| && steps[i].Append? && steps[i].file == IngestionHealth && LateDeath(START, steps[..i])
  {
    i := |steps| - 1;
    var front := steps[..i];
    if !InTime(START, front) {
      i := LateHealthAt(front);
      assert steps[..i] == front[..i];
    }
  }

  lemma LateDeathLast(front: seq<Step>, last: Step)
    ensures LateDeath(START, front + [last]) ==>
      || (LateDeath(START, front) && !last.Sync?)
      || (last.Die? && Commits(last) && Pending(After(START, front)).summaries != [])
  {
    assert (front + [last])[..|front|] == front;
  }

  lemma {:induction false} LateDeathAt(steps: seq<Step>) returns (d: nat)
    requires LateDeath(START, steps)
    ensures d < |steps| && steps[d].Die? && Commits(steps[d])
    ensures Pending(After(START, steps[..d])).summaries != []
    ensures forall k :: d < k < |steps| ==> !steps[k].Sync?
  {
    d := |steps| - 1;
    var front := steps[..d];
    FrontLast(steps);
    LateDeathLast(front, steps[d]);
    if LateDeath(START, front) && !steps[d].Sync? {
      d := LateDeathAt(front);
      assert steps[..d] == front[..d];
    }
  }

  lemma PendingSummaryLast(front: seq<Step>, last: Step)
    ensures Pending(After(START, front + [last])).summaries != [] ==>
      || (last.Append? && last.file == IngestionSummary)
      || (!Commits(last) && Pending(After(START, front)).summaries != [])
  {
    AfterNext(START, front, last);
    StaysSane(START, front);
    PendingAfter(After(START, front), last);
  }

  lemma {:induction false} PendingSummaryAt(steps: seq<Step>) returns (a: nat)
    requires Pending(After(START, steps)).summaries != []
    ensures a < |steps| && steps[a].Append? && steps[a].file == IngestionSummary
    ensures forall k :: a < k < |steps| ==> !Commits(steps[k])
  {
    assert steps != [];
    a := |steps| - 1;
    FrontLast(steps);
    PendingSummaryLast(steps[..a], steps[a]);
    if !(steps[a].Append? && steps[a].file == IngestionSummary) {
      a := PendingSummaryAt(steps[..a]);
    }
  }

  lemma LateReport(steps: seq<Step>) returns (a: nat, d: nat, i: nat)
    requires NoStops(steps) && !InTime(START, steps)
    ensures LateAt(steps, a, d, i)
  {
    i := LateHealthAt(steps);
    d := LateDeathAt(steps[..i]);
    assert steps[..i][..d] == steps[..d];
    a := PendingSummaryAt(steps[..d]);
  }

  // ---- a run of that shape that shows it ----

  /** Blank lines but for one summary and one health report; deaths before any line of their file. */
  function Filled(steps: seq<Step>, a: nat, i: nat): seq<Step> {
    if steps == [] then []
    else
      var n := |steps| - 1;
      var front := Filled(steps[..n], a, i);
      front + [FilledStep(steps[n], LineAt(n, a, i), After(START, front))]
  }

  function LineAt(n: nat, a: nat, i: nat): Line {
    if n == a then Some(SUMMARY) else if n == i then Some(HEALTH) else None
  }

  function FilledStep(step: Step, line: Line, st: Machine): Step {
    match step
    case Append(f, _) => Append(f, line)
    case Die(f, _) => Die(f, UpTo(st.model, Pending(st), f))
    case _ => step
  }

  lemma {:induction false} FilledShape(steps: seq<Step>, a: nat, i: nat)
    ensures SameShape(steps, Filled(steps, a, i))
  {
    if steps != [] {
      FilledShape(steps[..|steps| - 1], a, i);
    }
  }

  lemma {:induction false} FilledValid(steps: seq<Step>, a: nat, i: nat)
    ensures ValidRun(START, Filled(steps, a, i))
  {
    if steps != [] {
      var n := |steps| - 1;
      FilledValid(steps[..n], a, i);
      ValidOn(Filled(steps[..n], a, i), steps[n], LineAt(n, a, i));
    }
  }

  lemma ValidOn(front: seq<Step>, step: Step, line: Line)
    requires ValidRun(START, front)
    ensures ValidRun(START, front + [FilledStep(step, line, After(START, front))])
  {
    var st := After(START, front);
    AfterNext(START, front, FilledStep(step, line, st));
    if step.Die? {
      DiesEarly(st, step.file);
    }
  }

  lemma DiesEarly(st: Machine, f: File)
    ensures CanHappen(st, Die(f, UpTo(st.model, Pending(st), f)))
  {
    var m := UpTo(st.model, Pending(st), f);
    LinesLeftBehind(m, f, Of(Pending(st), f), 0);
    NothingApplied(m, f);
  }

  // ---- what is known of run "r" ----

  /** Blank lines but for `line`, once, unless it is blank too. */
  predicate Carries(lines: seq<Line>, line: Line) {
    if lines == [] then line.None?
    else
      var front, last := lines[..|lines| - 1], lines[|lines| - 1];
      if last.None? then Carries(front, line) else last == line && Carries(front, None)
  }

  lemma {:induction false} CarriedApplied(m: Model, f: File, lines: seq<Line>, line: Line)
    requires Carries(lines, line)
    ensures Applied(m, f, lines) == if line.None? then m else Applied(m, f, [line])
  {
    if lines == [] {
      NothingApplied(m, f);
    } else {
      var front, last := lines[..|lines| - 1], lines[|lines| - 1];
      FrontLast(lines);
      AppliedAppend(m, f, front, [last]);
      CarriedApplied(m, f, front, if last.None? then line else None);
      BlankLine(Applied(m, f, front), f);
    }
  }

  lemma CarriesNext(lines: seq<Line>, line: Line, next: Line)
    requires Carries(lines, line) && (next.None? || line.None?)
    ensures Carries(lines + [next], if next.None? then line else next) && lines + [] == lines
  {
    assert (lines + [next])[..|lines|] == lines;
  }

  /** The last word on the run, and whether a health report or a summary of it is still to be read. */
  datatype Word = Word(at: Option<string>, health: bool, summary: bool)

  function WordOf(m: Model): Option<string> {
    if "r" in m.runs then Some(m.runs["r"].updatedAt) else None
  }

  function HealthOf(w: Word): Line {
    if w.health then Some(HEALTH) else None
  }

  function SummaryOf(w: Word): Line {
    if w.summary then Some(SUMMARY) else None
  }

  ghost predicate Says(st: Machine, w: Word) {
    && Sane(st) && WordOf(st.model) == w.at
    && Carries(Pending(st).health, HealthOf(w)) && Carries(Pending(st).summaries, SummaryOf(w))
  }

  function HealthRead(w: Word): Word {
    if w.health then Word(Some("2"), false, w.summary) else w
  }

  function SummaryRead(w: Word): Word {
    if w.summary then Word(Some("1"), w.health, false) else w
  }

  function FilesRead(w: Word, f: File): Word {
    if Rank(f) <= Rank(IngestionHealth) then w
    else if Rank(f) <= Rank(IngestionSummary) then HealthRead(w)
    else SummaryRead(HealthRead(w))
  }

  function WordNext(w: Word, step: Step): Word {
    match step
    case Append(f, line) =>
      if line.None? then w else if f == IngestionHealth then w.(health := true) else w.(summary := true)
    case Sync => SummaryRead(HealthRead(w))
    case Die(f, _) => FilesRead(w, f)
    case Stop(f) => FilesRead(w, f)
  }

  lemma HealthWord(m: Model, lines: seq<Line>, w: Word)
    requires WordOf(m) == w.at && Carries(lines, HealthOf(w))
    ensures WordOf(Applied(m, IngestionHealth, lines)) == HealthRead(w).at
  {
    CarriedApplied(m, IngestionHealth, lines, HealthOf(w));
    HealthLine(m, HEALTH);
  }

  lemma SummaryWord(m: Model, lines: seq<Line>, w: Word)
    requires WordOf(m) == w.at && Carries(lines, SummaryOf(w))
    ensures WordOf(Applied(m, IngestionSummary, lines)) == SummaryRead(w).at
  {
    CarriedApplied(m, IngestionSummary, lines, SummaryOf(w));
    SummaryLine(m, SUMMARY);
  }

  lemma {:induction false} UpToWord(m: Model, pend: Logs, f: File, w: Word)
    requires WordOf(m) == w.at && Carries(pend.health, HealthOf(w)) && Carries(pend.summaries, SummaryOf(w))
    ensures WordOf(UpTo(m, pend, f)) == FilesRead(w, f).at
    decreases Rank(f)
  {
    match f {
      case CheckpointAuditRef =>
      case IngestionHealth =>
        assert UpTo(m, pend, f).runs == m.runs;
      case IngestionSummary =>
        UpToWord(m, pend, IngestionHealth, w);
        HealthWord(UpTo(m, pend, IngestionHealth), pend.health, w);
      case OperationalAlert =>
        UpToWord(m, pend, IngestionSummary, w);
        SummaryWord(UpTo(m, pend, IngestionSummary), pend.summaries, HealthRead(w));
      case RecoveryCommandAudit =>
        UpToWord(m, pend, OperationalAlert, w);
        assert UpTo(m, pend, f).runs == UpTo(m, pend, OperationalAlert).runs;
    }
  }

  /** Of the lines appended, only these two say something, and each one once. */
  predicate Followed(w: Word, step: Step) {
    step.Append? ==>
      || step.line.None?
      || (step.file == IngestionHealth && step.line == Some(HEALTH) && !w.health)
      || (step.file == IngestionSummary && step.line == Some(SUMMARY) && !w.summary)
  }

  lemma SaysAppend(st: Machine, w: Word, f: File, line: Line)
    requires Says(st, w) && Followed(w, Append(f, line))
    ensures Says(Next(st, Append(f, line)), WordNext(w, Append(f, line)))
  {
    PendingAfter(st, Append(f, line));
    CarriesNext(Pending(st).health, HealthOf(w), if f == IngestionHealth then line else None);
    CarriesNext(Pending(st).summaries, SummaryOf(w), if f == IngestionSummary then line else None);
  }

  lemma SaysSync(st: Machine, w: Word)
    requires Says(st, w)
    ensures Says(Next(st, Sync), SummaryRead(HealthRead(w)))
  {
    PendingAfter(st, Sync);
    UpToWord(st.model, Pending(st), RecoveryCommandAudit, w);
  }

  lemma SaysDeath(st: Machine, w: Word, f: File)
    requires Says(st, w)
    ensures Says(Next(st, Die(f, UpTo(st.model, Pending(st), f))), FilesRead(w, f))
  {
    PendingAfter(st, Die(f, UpTo(st.model, Pending(st), f)));
    UpToWord(st.model, Pending(st), f, w);
  }

  lemma SaysNext(st: Machine, w: Word, step: Step)
    requires Says(st, w) && Followed(w, step) && !step.Stop?
    requires step.Die? ==> step.left == UpTo(st.model, Pending(st), step.file)
    ensures Says(Next(st, step), WordNext(w, step))
  {
    match step {
      case Append(f, line) => SaysAppend(st, w, f, line);
      case Sync => SaysSync(st, w);
      case Die(f, _) => SaysDeath(st, w, f);
    }
  }

  // ---- with the dead syncs and without ----

  predicate WithDeaths(w: Word, n: nat, a: nat, d: nat, i: nat) {
    if n <= a then w == Word(None, false, false)
    else if n <= d then w == Word(None, false, true)
    else if n <= i then w == Word(Some("1"), false, false)
    else w == Word(Some("1"), true, false) || w == Word(Some("2"), false, false)
  }

  predicate WithoutDeaths(w: Word, n: nat, a: nat, i: nat) {
    if n <= a then w == Word(None, false, false)
    else if n <= i then w == Word(None, false, true)
    else w == Word(None, true, true) || w == Word(Some("1"), false, false)
  }

  /** What `Filled` makes of the k-th step. */
  predicate FilledAt(steps: seq<Step>, a: nat, i: nat, k: nat, step: Step) {
    k < |steps| && SameKind(steps[k], step) && (step.Append? ==> step.line == LineAt(k, a, i))
  }

  lemma DeadNext(steps: seq<Step>, a: nat, d: nat, i: nat, k: nat, w: Word, step: Step)
    requires LateAt(steps, a, d, i) && NoStops(steps) && FilledAt(steps, a, i, k, step) && WithDeaths(w, k, a, d, i)
    ensures Followed(w, step) && WithDeaths(WordNext(w, step), k + 1, a, d, i)
  {
    assert a < k < d ==> !Commits(steps[k]);
  }

  lemma CleanNext(steps: seq<Step>, a: nat, d: nat, i: nat, k: nat, w: Word, step: Step)
    requires LateAt(steps, a, d, i) && NoStops(steps) && FilledAt(steps, a, i, k, step) && WithoutDeaths(w, k, a, i)
    ensures Followed(w, step) && WithoutDeaths(if step.Die? then w else WordNext(w, step), k + 1, a, i)
  {
    assert a < k < i ==> !steps[k].Sync?;
  }

  /** After the first `n` steps of the filled run, and of what is left of them without the deaths. */
  function DeadTo(steps: seq<Step>, a: nat, i: nat, n: nat): Machine
    requires n <= |steps|
  {
    After(START, Filled(steps[..n], a, i))
  }

  function CleanTo(steps: seq<Step>, a: nat, i: nat, n: nat): Machine
    requires n <= |steps|
  {
    After(START, Removed(Filled(steps[..n], a, i)))
  }

  lemma ToNext(steps: seq<Step>, a: nat, i: nat, n: nat)
    requires n < |steps|
    ensures var step := FilledStep(steps[n], LineAt(n, a, i), DeadTo(steps, a, i, n));
            && DeadTo(steps, a, i, n + 1) == Next(DeadTo(steps, a, i, n), step)
            && CleanTo(steps, a, i, n + 1)
                 == if step.Die? then CleanTo(steps, a, i, n) else Next(CleanTo(steps, a, i, n), step)
  {
    TakeNext(steps, n);
    var front := Filled(steps[..n], a, i);
    var step := FilledStep(steps[n], LineAt(n, a, i), After(START, front));
    assert Filled(steps[..n + 1], a, i) == front + [step];
    AfterNext(START, front, step);
    RemovedNext(front, step);
  }

  lemma NothingSaid(steps: seq<Step>, a: nat, i: nat)
    ensures Says(DeadTo(steps, a, i, 0), Word(None, false, false))
    ensures Says(CleanTo(steps, a, i, 0), Word(None, false, false))
  {
  }

  lemma DeadSays(st: Machine, steps: seq<Step>, a: nat, d: nat, i: nat, k: nat, w: Word) returns (w': Word)
    requires LateAt(steps, a, d, i) && NoStops(steps) && k < |steps| && Says(st, w) && WithDeaths(w, k, a, d, i)
    ensures Says(Next(st, FilledStep(steps[k], LineAt(k, a, i), st)), w') && WithDeaths(w', k + 1, a, d, i)
  {
    var step := FilledStep(steps[k], LineAt(k, a, i), st);
    DeadNext(steps, a, d, i, k, w, step);
    SaysNext(st, w, step);
    w' := WordNext(w, step);
  }

  lemma CleanSays(st: Machine, steps: seq<Step>, a: nat, d: nat, i: nat, k: nat, w: Word, step: Step)
    returns (w': Word)
    requires LateAt(steps, a, d, i) && NoStops(steps) && FilledAt(steps, a, i, k, step)
    requires Says(st, w) && WithoutDeaths(w, k, a, i)
    ensures Says(if step.Die? then st else Next(st, step), w') && WithoutDeaths(w', k + 1, a, i)
  {
    CleanNext(steps, a, d, i, k, w, step);
    w' := w;
    if !step.Die? {
      SaysNext(st, w, step);
      w' := WordNext(w, step);
    }
  }

  ghost predicate DeadSaid(steps: seq<Step>, a: nat, d: nat, i: nat, n: nat, w: Word) {
    n <= |steps| && Says(DeadTo(steps, a, i, n), w) && WithDeaths(w, n, a, d, i)
  }

  ghost predicate CleanSaid(steps: seq<Step>, a: nat, i: nat, n: nat, w: Word) {
    n <= |steps| && Says(CleanTo(steps, a, i, n), w) && WithoutDeaths(w, n, a, i)
  }

  lemma DeadSaidNext(steps: seq<Step>, a: nat, d: nat, i: nat, n: nat, w: Word) returns (w': Word)
    requires LateAt(steps, a, d, i) && NoStops(steps) && n < |steps| && DeadSaid(steps, a, d, i, n, w)
    ensures DeadSaid(steps, a, d, i, n + 1, w')
  {
    ToNext(steps, a, i, n);
    w' := DeadSays(DeadTo(steps, a, i, n), steps, a, d, i, n, w);
  }

  lemma CleanSaidNext(steps: seq<Step>, a: nat, d: nat, i: nat, n: nat, w: Word) returns (w': Word)
    requires LateAt(steps, a, d, i) && NoStops(steps) && n < |steps| && CleanSaid(steps, a, i, n, w)
    ensures CleanSaid(steps, a, i, n + 1, w')
  {
    ToNext(steps, a, i, n);
    var step := FilledStep(steps[n], LineAt(n, a, i), DeadTo(steps, a, i, n));
    w' := CleanSays(CleanTo(steps, a, i, n), steps, a, d, i, n, w, step);
  }

  lemma {:induction false} DeadWord(steps: seq<Step>, a: nat, d: nat, i: nat, n: nat) returns (w: Word)
    requires LateAt(steps, a, d, i) && NoStops(steps) && n <= |steps|
    ensures DeadSaid(steps, a, d, i, n, w)
  {
    if n == 0 {
      NothingSaid(steps, a, i);
      w := Word(None, false, false);
    } else {
      w := DeadWord(steps, a, d, i, n - 1);
      w := DeadSaidNext(steps, a, d, i, n - 1, w);
    }
  }

  lemma {:induction false} CleanWord(steps: seq<Step>, a: nat, d: nat, i: nat, n: nat) returns (w: Word)
    requires LateAt(steps, a, d, i) && NoStops(steps) && n <= |steps|
    ensures CleanSaid(steps, a, i, n, w)
  {
    if n == 0 {
      NothingSaid(steps, a, i);
      w := Word(None, false, false);
    } else {
      w := CleanWord(steps, a, d, i, n - 1);
      w := CleanSaidNext(steps, a, d, i, n - 1, w);
    }
  }

  lemma RemovedNext(front: seq<Step>, step: Step)
    ensures After(START, Removed(front + [step]))
         == if step.Die? then After(START, Removed(front)) else Next(After(START, Removed(front)), step)
  {
    assert (front + [step])[..|front|] == front;
    RemovedLast(START, front + [step]);
  }

  lemma LastSync(steps: seq<Step>, w: Word)
    requires Says(After(START, steps), w)
    ensures WordOf(After(START, steps + [Sync]).model) == SummaryRead(HealthRead(w)).at
  {
    AfterNext(START, steps, Sync);
    SaysSync(After(START, steps), w);
  }

  /** The health report has the last word with the dead syncs, without them the summary. */
  lemma FilledDiffers(steps: seq<Step>, a: nat, d: nat, i: nat)
    requires LateAt(steps, a, d, i) && NoStops(steps)
    ensures !SameInTheEnd(Filled(steps, a, i))
  {
    TakeAll(steps);
    var dead := DeadWord(steps, a, d, i, |steps|);
    var clean := CleanWord(steps, a, d, i, |steps|);
    LastSync(Filled(steps, a, i), dead);
    LastSync(Removed(Filled(steps, a, i)), clean);
    Differ(steps, a, i);
  }

  lemma Differ(steps: seq<Step>, a: nat, i: nat)
    requires WordOf(After(START, Filled(steps, a, i) + [Sync]).model)
          != WordOf(After(START, Removed(Filled(steps, a, i)) + [Sync]).model)
    ensures !SameInTheEnd(Filled(steps, a, i))
  {
  }
}
