/** Which runs of the command queue keep audit trails, statuses and claims in order. */
module CommandRuns {
  import opened Sequences
  import opened CommandQueue

  lemma RunOn(steps: seq<Step>, step: Step)
    ensures After(EMPTY, steps + [step]) == Next(After(EMPTY, steps), step)
    ensures ValidRun(EMPTY, steps + [step]) <==> ValidRun(EMPTY, steps) && CanStep(After(EMPTY, steps), step)
  {
    assert (steps + [step])[..|steps|] == steps;
  }

  // ---- audit trails ----

  /** The trails a command can have once its request was recorded first. */
  const WHOLE_TRAILS := [[AuditQueued, AuditStarted, AuditSucceeded], [AuditQueued, AuditStarted, AuditFailed]]

  ghost predicate IsPrefix<T>(a: seq<T>, b: seq<T>) {
    |a| <= |b| && a == b[..|a|]
  }

  ghost predicate TrailInOrder(audit: seq<AuditEvent>) {
    IsPrefix(audit, WHOLE_TRAILS[0]) || IsPrefix(audit, WHOLE_TRAILS[1])
  }

  /** A trail is a beginning of queued, started, outcome exactly when nothing was written before "queued". */
  lemma TrailInOrderAlready(q: Queue, id: Id)
    requires AllTracked(q) && id in q.commands
    ensures var audit := q.commands[id].audit; TrailInOrder(audit) <==> audit == [] || audit[0] == AuditQueued
  {
    assert Tracked(q, id);
    var audit := q.commands[id].audit;
    if audit != [] && audit[0] == AuditQueued {
      OneQueued(audit);
      assert audit == [AuditQueued] + Worked(audit);
    }
  }

  lemma OneQueued(audit: seq<AuditEvent>)
    requires audit != [] && audit[0] == AuditQueued && |Filter(audit, (event: AuditEvent) => event == AuditQueued)| <= 1
    ensures Worked(audit) == audit[1..]
  {
    var queued := (event: AuditEvent) => event == AuditQueued;
    var rest := audit[1..];
    assert Filter(audit, queued) == [AuditQueued] + Filter(rest, queued);
    forall i | 0 <= i < |rest| ensures rest[i] != AuditQueued {
      FilterMembers(rest, queued, rest[i]);
    }
    FilterAll(rest, (event: AuditEvent) => event != AuditQueued);
  }

  /** The command claimed last. */
  function LastClaim(steps: seq<Step>): Option<Id> {
    if steps == [] then None
    else if steps[|steps| - 1].Claim? then Some(steps[|steps| - 1].id)
    else LastClaim(steps[..|steps| - 1])
  }

  /** The worker records the start of the command before the API has recorded its request. */
  predicate StartsUnqueued(steps: seq<Step>, id: Id) {
    steps != [] &&
      var front, last := steps[..|steps| - 1], steps[|steps| - 1];
      || StartsUnqueued(front, id)
      || (last.WriteStarted? && LastClaim(front) == Some(id) && WriteQueued(id) !in front)
  }

  lemma {:induction false} ClaimHeld(steps: seq<Step>)
    requires ValidRun(EMPTY, steps)
    ensures var w := After(EMPTY, steps).worker; !w.Idle? ==> LastClaim(steps) == Some(w.id)
  {
    if steps != [] {
      ClaimHeld(steps[..|steps| - 1]);
    }
  }

  /** What the steps tell about a command's trail. */
  ghost predicate TrailTold(q: Queue, steps: seq<Step>, id: Id) {
    if id in q.commands then
      var audit := q.commands[id].audit;
      && (AuditQueued in audit <==> WriteQueued(id) in steps)
      && (audit == [] || audit[0] == AuditQueued <==> !StartsUnqueued(steps, id))
    else WriteQueued(id) !in steps && !StartsUnqueued(steps, id)
  }

  lemma {:induction false} TrailIsTold(steps: seq<Step>, id: Id)
    requires ValidRun(EMPTY, steps)
    ensures TrailTold(After(EMPTY, steps), steps, id)
  {
    if steps != [] {
      var front := steps[..|steps| - 1];
      TrailIsTold(front, id);
      RunTracks(front);
      ClaimHeld(front);
      TrailToldNext(After(EMPTY, front), steps, id);
    }
  }

  lemma TrailToldNext(q: Queue, steps: seq<Step>, id: Id)
    requires steps != [] && AllTracked(q) && CanStep(q, steps[|steps| - 1])
    requires TrailTold(q, steps[..|steps| - 1], id)
    requires !q.worker.Idle? ==> LastClaim(steps[..|steps| - 1]) == Some(q.worker.id)
    ensures TrailTold(Next(q, steps[|steps| - 1]), steps, id)
  {
    var front, last := steps[..|steps| - 1], steps[|steps| - 1];
    assert WriteQueued(id) in steps <==> WriteQueued(id) in front || last == WriteQueued(id);
    assert Tracked(q, id);
    if id in q.commands && last.WriteStarted? && q.worker.id == id {
      StartedTrail(q.commands[id].audit);
    }
  }

  /** Before the start is recorded a trail holds "queued" or nothing. */
  lemma StartedTrail(audit: seq<AuditEvent>)
    requires Worked(audit) == []
    ensures audit == [] || audit[0] == AuditQueued
    ensures AuditQueued in audit <==> audit != []
  {
    if audit != [] {
      FilterMembers(audit, (event: AuditEvent) => event != AuditQueued, audit[0]);
    }
  }

  /**
    * A trail is a beginning of queued, started, outcome exactly when the worker did not record the
    * start before the API had recorded the request.
    */
  lemma TrailInOrderIff(steps: seq<Step>, id: Id)
    requires ValidRun(EMPTY, steps) && id in After(EMPTY, steps).commands
    ensures TrailInOrder(After(EMPTY, steps).commands[id].audit) <==> !StartsUnqueued(steps, id)
  {
    RunTracks(steps);
    TrailIsTold(steps, id);
    TrailInOrderAlready(After(EMPTY, steps), id);
  }

  /** The worker claims a command between the two writes of the API. */
  const RACE := [Enqueue("c", 0), Claim("c"), WriteStarted, WriteQueued("c")]

  lemma RaceBreaksTrail()
    ensures ValidRun(EMPTY, RACE) && "c" in After(EMPTY, RACE).commands
    ensures !TrailInOrder(After(EMPTY, RACE).commands["c"].audit)
  {
    ClaimedOnly();
    RunOn(RACE[..2], WriteStarted);
    RunOn(RACE[..3], WriteQueued("c"));
    assert RACE[..2] + [WriteStarted] == RACE[..3] && RACE[..3] + [WriteQueued("c")] == RACE;
    assert RACE[..3][..2] == RACE[..2] && RACE[..2][..1] == RACE[..1];
    assert StartsUnqueued(RACE[..3], "c");
    TrailInOrderIff(RACE, "c");
  }

  lemma ClaimedOnly()
    ensures RACE[..2] == [Enqueue("c", 0), Claim("c")] && ValidRun(EMPTY, RACE[..2])
    ensures After(EMPTY, RACE[..2]) == Queue(map["c" := Command(0, [Pending, Running], 0, [])], Claimed("c"), ["c"])
  {
    RunOn([], Enqueue("c", 0));
    RunOn([Enqueue("c", 0)], Claim("c"));
    assert [] + [Enqueue("c", 0)] == [Enqueue("c", 0)];
    assert [Enqueue("c", 0)] + [Claim("c")] == RACE[..2];
    var one := Next(EMPTY, Enqueue("c", 0));
    assert one.commands == map["c" := Command(0, [Pending], 0, [])];
    assert [Pending] + [Running] == [Pending, Running] && [] + ["c"] == ["c"];
    assert Next(one, Claim("c")).commands == map["c" := Command(0, [Pending, Running], 0, [])];
  }

  // ---- statuses ----

  /** What a command's status can have been, in order. */
  ghost predicate StatusesInOrder(statuses: seq<Status>) {
    IsPrefix(statuses, [Pending, Running, Succeeded]) || IsPrefix(statuses, [Pending, Running, Failed])
  }

  /** The steps of the worker alone. */
  function WorkerSteps(steps: seq<Step>): seq<Step> {
    if steps == [] then []
    else
      var front, last := WorkerSteps(steps[..|steps| - 1]), steps[|steps| - 1];
      if last.Enqueue? || last.WriteQueued? then front else front + [last]
  }

  /** A pass that executes with an unwritable result and lives to find that out. */
  function FailingPass(id: Id): seq<Step> {
    [Claim(id), WriteStarted, Execute(Success(false)), Complete, WriteOutcome, Complete]
  }

  predicate EndsWith(steps: seq<Step>, part: seq<Step>) {
    |part| <= |steps| && steps[|steps| - |part|..] == part
  }

  /** At some point the worker had just made such a pass on the command, uninterrupted. */
  predicate FailsLater(steps: seq<Step>, id: Id) {
    steps != [] && (FailsLater(steps[..|steps| - 1], id) || EndsWith(WorkerSteps(steps), FailingPass(id)))
  }

  /** The worker's last steps are those that led it where it is. */
  ghost predicate Led(w: Worker, steps: seq<Step>) {
    match w
    case Idle => true
    case Claimed(id) => EndsWith(steps, [Claim(id)])
    case Begun(id) => EndsWith(steps, [Claim(id), WriteStarted])
    case Ran(id, outcome) => EndsWith(steps, [Claim(id), WriteStarted, Execute(outcome)])
    case Completed(id, outcome) =>
      || EndsWith(steps, [Claim(id), WriteStarted, Execute(outcome), Complete])
      || (outcome != Success(false) && EndsWith(steps, FailingPass(id)))
    case AuditRaised(id) => EndsWith(steps, [Claim(id), WriteStarted, Execute(Success(false)), Complete, WriteOutcome])
  }

  lemma EndsOn(steps: seq<Step>, part: seq<Step>, step: Step, whole: seq<Step>)
    requires EndsWith(steps, part) && whole == part + [step]
    ensures EndsWith(steps + [step], whole)
  {
    assert (steps + [step])[|steps| - |part|..] == steps[|steps| - |part|..] + [step];
  }

  lemma LedNext(q: Queue, done: seq<Step>, step: Step)
    requires CanStep(q, step) && Led(q.worker, done)
    ensures Led(Next(q, step).worker, if step.Enqueue? || step.WriteQueued? then done else done + [step])
  {
    match step {
      case Claim(id) => EndsOn(done, [], step, [Claim(id)]);
      case WriteStarted => BegunLed(q.worker.id, done);
      case Execute(outcome) => RanLed(q.worker.id, done, outcome);
      case Complete => CompletedLed(q.worker, done);
      case WriteOutcome =>
        if q.worker.outcome == Success(false) {
          RaisedLed(q.worker, done);
        }
      case _ =>
    }
  }

  lemma BegunLed(id: Id, done: seq<Step>)
    requires Led(Claimed(id), done)
    ensures Led(Begun(id), done + [WriteStarted])
  {
    EndsOn(done, [Claim(id)], WriteStarted, [Claim(id), WriteStarted]);
  }

  lemma RanLed(id: Id, done: seq<Step>, outcome: Outcome)
    requires Led(Begun(id), done)
    ensures Led(Ran(id, outcome), done + [Execute(outcome)])
  {
    EndsOn(done, [Claim(id), WriteStarted], Execute(outcome), [Claim(id), WriteStarted, Execute(outcome)]);
  }

  lemma CompletedLed(w: Worker, done: seq<Step>)
    requires Led(w, done)
    ensures w.Ran? ==> Led(Completed(w.id, w.outcome), done + [Complete])
    ensures w.AuditRaised? ==> EndsWith(done + [Complete], FailingPass(w.id))
  {
    if w.Ran? {
      EndsOn(done, [Claim(w.id), WriteStarted, Execute(w.outcome)], Complete,
             [Claim(w.id), WriteStarted, Execute(w.outcome), Complete]);
    } else if w.AuditRaised? {
      EndsOn(done, [Claim(w.id), WriteStarted, Execute(Success(false)), Complete, WriteOutcome], Complete,
        FailingPass(w.id));
    }
  }

  lemma RaisedLed(w: Worker, done: seq<Step>)
    requires w.Completed? && w.outcome == Success(false) && Led(w, done)
    ensures Led(AuditRaised(w.id), done + [WriteOutcome])
  {
    EndsOn(done, [Claim(w.id), WriteStarted, Execute(Success(false)), Complete], WriteOutcome,
           [Claim(w.id), WriteStarted, Execute(Success(false)), Complete, WriteOutcome]);
  }

  /** Only a completion after an audit row that could not be written ends a failing pass. */
  lemma FailingPassEnds(w: Worker, done: seq<Step>, step: Step, id: Id)
    requires Led(w, done) && (step.Complete? ==> w.Ran? || w.AuditRaised?)
    ensures EndsWith(done + [step], FailingPass(id)) <==> step.Complete? && w == AuditRaised(id)
  {
    var all := done + [step];
    CompletedLed(w, done);
    if EndsWith(all, FailingPass(id)) {
      var end := all[|all| - 6..];
      assert end == FailingPass(id) && end[5] == step && end[4] == done[|done| - 1] && end[0] == done[|done| - 5];
      if w.AuditRaised? {
        LastOf(done, [Claim(w.id), WriteStarted, Execute(Success(false)), Complete, WriteOutcome]);
      }
    }
  }

  lemma LastOf(steps: seq<Step>, part: seq<Step>)
    requires EndsWith(steps, part) && part != []
    ensures steps[|steps| - 1] == part[|part| - 1] && steps[|steps| - |part|] == part[0]
  {
  }

  /** What the steps tell about a command's statuses. */
  ghost predicate StatusesTold(q: Queue, steps: seq<Step>, id: Id) {
    if id in q.commands then q.commands[id].statuses == [Pending, Running, Succeeded, Failed] <==> FailsLater(steps, id)
    else !FailsLater(steps, id)
  }

  lemma {:induction false} StatusesAreTold(steps: seq<Step>, id: Id)
    requires ValidRun(EMPTY, steps)
    ensures StatusesTold(After(EMPTY, steps), steps, id) && Led(After(EMPTY, steps).worker, WorkerSteps(steps))
  {
    if steps != [] {
      var front, last := steps[..|steps| - 1], steps[|steps| - 1];
      StatusesAreTold(front, id);
      RunTracks(front);
      LedNext(After(EMPTY, front), WorkerSteps(front), last);
      FailsLaterNext(After(EMPTY, front).worker, steps, id);
      StatusesToldNext(After(EMPTY, front), last, id);
    }
  }

  lemma FailsLaterNext(w: Worker, steps: seq<Step>, id: Id)
    requires steps != [] && Led(w, WorkerSteps(steps[..|steps| - 1]))
    requires steps[|steps| - 1].Complete? ==> w.Ran? || w.AuditRaised?
    ensures FailsLater(steps, id)
      <==> FailsLater(steps[..|steps| - 1], id) || (steps[|steps| - 1].Complete? && w == AuditRaised(id))
  {
    var front, last := steps[..|steps| - 1], steps[|steps| - 1];
    if last.Enqueue? || last.WriteQueued? {
      assert WorkerSteps(steps) == WorkerSteps(front);
      assert front == [] ==> WorkerSteps(front) == [];
    } else {
      FailingPassEnds(w, WorkerSteps(front), last, id);
    }
  }

  /** A command's statuses become out of order by that completion and no other step. */
  lemma StatusesToldNext(q: Queue, step: Step, id: Id)
    requires AllTracked(q) && CanStep(q, step)
    ensures var failed := [Pending, Running, Succeeded, Failed];
            (id in Next(q, step).commands && Next(q, step).commands[id].statuses == failed)
              <==> ((id in q.commands && q.commands[id].statuses == failed)
                    || (step.Complete? && q.worker == AuditRaised(id)))
  {
    assert Tracked(q, id);
    if id in q.commands && Next(q, step).commands[id].statuses != q.commands[id].statuses {
      StatusAppended(q, step, id);
    }
  }

  lemma StatusAppended(q: Queue, step: Step, id: Id)
    requires AllTracked(q) && CanStep(q, step) && id in q.commands
    requires Next(q, step).commands[id].statuses != q.commands[id].statuses
    ensures var statuses := Next(q, step).commands[id].statuses;
            if step.Complete? && q.worker == AuditRaised(id) then statuses == [Pending, Running, Succeeded, Failed]
            else |statuses| <= 3
  {
    assert Tracked(q, id);
  }

  /**
    * A command's status is only ever pending, running, then final exactly when the worker never makes
    * an uninterrupted pass on it that executes with an unwritable result and goes on to complete it
    * a second time.
    */
  lemma StatusesInOrderIff(steps: seq<Step>, id: Id)
    requires ValidRun(EMPTY, steps) && id in After(EMPTY, steps).commands
    ensures StatusesInOrder(After(EMPTY, steps).commands[id].statuses) <==> !FailsLater(steps, id)
  {
    RunTracks(steps);
    StatusesAreTold(steps, id);
    assert Tracked(After(EMPTY, steps), id);
  }

  /** So it is when every executed result can be written to the audit table. */
  lemma StatusFollows(steps: seq<Step>, id: Id)
    requires ValidRun(EMPTY, steps) && Execute(Success(false)) !in steps && id in After(EMPTY, steps).commands
    ensures StatusesInOrder(After(EMPTY, steps).commands[id].statuses)
  {
    FailingNeedsUnwritable(steps, id);
    StatusesInOrderIff(steps, id);
  }

  lemma {:induction false} FailingNeedsUnwritable(steps: seq<Step>, id: Id)
    ensures forall step :: step in WorkerSteps(steps) ==> step in steps
    ensures FailsLater(steps, id) ==> Execute(Success(false)) in steps
  {
    if steps != [] {
      FailingNeedsUnwritable(steps[..|steps| - 1], id);
      var done := WorkerSteps(steps);
      if EndsWith(done, FailingPass(id)) {
        assert done[|done| - 6..][2] == Execute(Success(false)) && done[|done| - 4] == done[|done| - 6..][2];
      }
    }
  }

  /** A result that cannot be written always makes its command fail after it has succeeded. */
  lemma UnwritableResultFailsLater(q: Queue)
    requires AllTracked(q) && q.worker.Begun?
    ensures var id := q.worker.id;
            var done := Next(Next(q, Execute(Success(false))), Complete);
            var failed := Next(Next(done, WriteOutcome), Complete);
            && CanStep(Next(done, WriteOutcome), Complete)
            && done.commands[id].statuses == [Pending, Running, Succeeded]
            && failed.commands[id].statuses == [Pending, Running, Succeeded, Failed]
  {
    assert Tracked(q, q.worker.id);
  }

  /** One such pass over one command. */
  const UNWRITABLE := [
    Enqueue("c", 0), Claim("c"), WriteStarted, Execute(Success(false)), Complete, WriteOutcome, Complete
  ]

  lemma SuccessThenFailure()
    ensures ValidRun(EMPTY, UNWRITABLE) && "c" in After(EMPTY, UNWRITABLE).commands
    ensures !StatusesInOrder(After(EMPTY, UNWRITABLE).commands["c"].statuses)
  {
    UnwritableRuns();
    var steps := UNWRITABLE;
    StatusesAreTold(steps, "c");
    assert steps[..|steps| - 1] == steps[..6];
    UnwritablePass();
    StatusesInOrderIff(steps, "c");
  }

  lemma UnwritableRuns()
    ensures ValidRun(EMPTY, UNWRITABLE) && "c" in After(EMPTY, UNWRITABLE).commands
  {
    ClaimedOnly();
    var steps := UNWRITABLE;
    assert steps[..2] == RACE[..2];
    Extended(steps, 2);
    Extended(steps, 3);
    Extended(steps, 4);
    assert After(EMPTY, steps[..4]).worker == Ran("c", Success(false));
    Extended(steps, 5);
    Extended(steps, 6);
    assert steps[..7] == steps;
  }

  lemma Extended(steps: seq<Step>, i: nat)
    requires i < |steps|
    ensures After(EMPTY, steps[..i + 1]) == Next(After(EMPTY, steps[..i]), steps[i])
    ensures ValidRun(EMPTY, steps[..i + 1])
      <==> ValidRun(EMPTY, steps[..i]) && CanStep(After(EMPTY, steps[..i]), steps[i])
  {
    TakeNext(steps, i);
  }

  lemma UnwritablePass()
    ensures EndsWith(WorkerSteps(UNWRITABLE), FailingPass("c"))
  {
    var steps := UNWRITABLE;
    WorkerStepsAppend([steps[0]], steps[1..]);
    assert [steps[0]] + steps[1..] == steps;
    AllWorkerSteps(steps[1..]);
    WorkerStepsAppend([], [steps[0]]);
  }

  lemma {:induction false} WorkerStepsAppend(a: seq<Step>, b: seq<Step>)
    ensures WorkerSteps(a + b) == WorkerSteps(a) + WorkerSteps(b)
  {
    if b == [] {
      assert a + b == a;
    } else {
      assert (a + b)[..|a + b| - 1] == a + b[..|b| - 1];
      WorkerStepsAppend(a, b[..|b| - 1]);
    }
  }

  lemma {:induction false} AllWorkerSteps(steps: seq<Step>)
    requires forall i :: 0 <= i < |steps| ==> !steps[i].Enqueue? && !steps[i].WriteQueued?
    ensures WorkerSteps(steps) == steps
  {
    if steps != [] {
      AllWorkerSteps(steps[..|steps| - 1]);
      FrontLast(steps);
    }
  }

  // ---- claims ----

  /** Nothing becomes pending but what is put into the queue, and no request time ever changes. */
  lemma PendingBefore(q: Queue, step: Step, id: Id)
    requires CanStep(q, step)
    ensures IsPending(Next(q, step), id) && !(step.Enqueue? && step.id == id) ==> IsPending(q, id)
    ensures id in q.commands
      ==> id in Next(q, step).commands && Next(q, step).commands[id].requestedAt == q.commands[id].requestedAt
  {
    var q' := Next(q, step);
    if id in q.commands && q'.commands[id].statuses != q.commands[id].statuses {
      assert q'.commands[id].statuses[|q.commands[id].statuses|] != Pending;
    }
  }

  /** When the command was put into the queue, one requested later had been claimed already. */
  predicate ComesLate(steps: seq<Step>, id: Id) {
    steps != [] &&
      var front, last := steps[..|steps| - 1], steps[|steps| - 1];
      || ComesLate(front, id)
      || (last.Enqueue? && last.id == id && ClaimedAfter(After(EMPTY, front), last.requestedAt))
  }

  /** Some claimed command was requested after the given time. */
  predicate ClaimedAfter(q: Queue, at: int) {
    exists i :: 0 <= i < |q.claims| && RequestTime(q, q.claims[i]) > at
  }

  function RequestTime(q: Queue, id: Id): int {
    if id in q.commands then q.commands[id].requestedAt else 0
  }

  ghost predicate ClaimsInOrder(q: Queue) {
    forall i, j :: 0 <= i < j < |q.claims| ==> RequestTime(q, q.claims[i]) <= RequestTime(q, q.claims[j])
  }

  ghost predicate SomeClaimCameLate(q: Queue, steps: seq<Step>) {
    exists i :: 0 <= i < |q.claims| && ComesLate(steps, q.claims[i])
  }

  /** What the steps tell about the claims. */
  ghost predicate ClaimsTold(q: Queue, steps: seq<Step>) {
    && (forall i :: 0 <= i < |q.claims| ==> q.claims[i] in q.commands && !IsPending(q, q.claims[i]))
    && (forall id :: ComesLate(steps, id) ==> id in q.commands)
    && (forall id :: IsPending(q, id) ==> (ComesLate(steps, id) <==> ClaimedAfter(q, RequestTime(q, id))))
    && (ClaimsInOrder(q) <==> !SomeClaimCameLate(q, steps))
  }

  lemma {:induction false} ClaimsAreTold(steps: seq<Step>)
    requires ValidRun(EMPTY, steps)
    ensures ClaimsTold(After(EMPTY, steps), steps)
  {
    if steps != [] {
      var front, last := steps[..|steps| - 1], steps[|steps| - 1];
      ClaimsAreTold(front);
      if last.Claim? {
        ClaimTold(After(EMPTY, front), steps);
      } else {
        NoClaimTold(After(EMPTY, front), steps);
      }
    }
  }

  lemma NoClaimTold(q: Queue, steps: seq<Step>)
    requires steps != [] && q == After(EMPTY, steps[..|steps| - 1]) && CanStep(q, steps[|steps| - 1])
    requires ClaimsTold(q, steps[..|steps| - 1]) && !steps[|steps| - 1].Claim?
    ensures ClaimsTold(Next(q, steps[|steps| - 1]), steps)
  {
    var front, last := steps[..|steps| - 1], steps[|steps| - 1];
    QueueKept(q, last);
    assert Next(q, last).claims == q.claims;
  }

  lemma QueueKept(q: Queue, step: Step)
    requires CanStep(q, step)
    ensures forall id :: IsPending(Next(q, step), id) && !(step.Enqueue? && step.id == id) ==> IsPending(q, id)
    ensures forall id :: id in q.commands ==>
      id in Next(q, step).commands && RequestTime(Next(q, step), id) == RequestTime(q, id)
  {
    forall id
      ensures IsPending(Next(q, step), id) && !(step.Enqueue? && step.id == id) ==> IsPending(q, id)
      ensures id in q.commands
        ==> id in Next(q, step).commands && RequestTime(Next(q, step), id) == RequestTime(q, id)
    {
      PendingBefore(q, step, id);
    }
  }

  lemma ClaimTold(q: Queue, steps: seq<Step>)
    requires steps != [] && q == After(EMPTY, steps[..|steps| - 1]) && CanStep(q, steps[|steps| - 1])
    requires ClaimsTold(q, steps[..|steps| - 1]) && steps[|steps| - 1].Claim?
    ensures ClaimsTold(Next(q, steps[|steps| - 1]), steps)
  {
    var front, last := steps[..|steps| - 1], steps[|steps| - 1];
    var q' := Next(q, last);
    forall id
      ensures IsPending(q', id) ==> IsPending(q, id) && id != last.id
      ensures id in q.commands ==> id in q'.commands && RequestTime(q', id) == RequestTime(q, id)
      ensures ComesLate(steps, id) <==> ComesLate(front, id)
    {
      PendingBefore(q, last, id);
    }
    forall id | IsPending(q', id)
      ensures ClaimedAfter(q', RequestTime(q', id)) <==> ClaimedAfter(q, RequestTime(q, id)) {
      ClaimAdds(q, q', last.id, RequestTime(q, id));
    }
    ClaimOrder(q, q', last.id);
    LateAdds(q, q', front, steps, last.id);
  }

  /** What a claim adds to the claims. */
  ghost predicate ClaimAdded(q: Queue, q': Queue, id: Id) {
    && q'.claims == q.claims + [id]
    && (forall i :: 0 <= i < |q.claims| ==> RequestTime(q', q.claims[i]) == RequestTime(q, q.claims[i]))
    && RequestTime(q', id) == RequestTime(q, id)
  }

  lemma ClaimAdds(q: Queue, q': Queue, id: Id, at: int)
    requires ClaimAdded(q, q', id)
    ensures ClaimedAfter(q', at) <==> ClaimedAfter(q, at) || RequestTime(q, id) > at
  {
    if i :| 0 <= i < |q.claims| && RequestTime(q, q.claims[i]) > at {
      assert RequestTime(q', q'.claims[i]) > at;
    }
    if RequestTime(q, id) > at {
      assert RequestTime(q', q'.claims[|q.claims|]) > at;
    }
  }

  lemma ClaimOrder(q: Queue, q': Queue, id: Id)
    requires ClaimAdded(q, q', id)
    ensures ClaimsInOrder(q') <==> ClaimsInOrder(q) && !ClaimedAfter(q, RequestTime(q, id))
  {
    var n := |q.claims|;
    assert q'.claims[n] == id && forall i :: 0 <= i < n ==> q'.claims[i] == q.claims[i];
    if ClaimsInOrder(q') {
      forall i | 0 <= i < n ensures RequestTime(q, q.claims[i]) <= RequestTime(q, id) {
        assert RequestTime(q', q'.claims[i]) <= RequestTime(q', q'.claims[n]);
      }
      forall i, j | 0 <= i < j < n ensures RequestTime(q, q.claims[i]) <= RequestTime(q, q.claims[j]) {
        assert RequestTime(q', q'.claims[i]) <= RequestTime(q', q'.claims[j]);
      }
    }
  }

  lemma LateAdds(q: Queue, q': Queue, front: seq<Step>, steps: seq<Step>, id: Id)
    requires q'.claims == q.claims + [id] && forall other :: ComesLate(steps, other) <==> ComesLate(front, other)
    ensures SomeClaimCameLate(q', steps) <==> SomeClaimCameLate(q, front) || ComesLate(front, id)
  {
    if i :| 0 <= i < |q.claims| && ComesLate(front, q.claims[i]) {
      assert ComesLate(steps, q'.claims[i]);
    }
    if ComesLate(front, id) {
      assert ComesLate(steps, q'.claims[|q.claims|]);
    }
  }

  /** A command requested earlier that arrives in the queue after another has been claimed. */
  const OVERTAKEN := [Enqueue("b", 1), Claim("b"), Crash, Enqueue("a", 0), Claim("a")]

  lemma OvertakenClaim()
    ensures ValidRun(EMPTY, OVERTAKEN) && !ClaimsInOrder(After(EMPTY, OVERTAKEN))
  {
    RunOn([], OVERTAKEN[0]);
    forall i | 0 < i < 5 ensures OVERTAKEN[..i] + [OVERTAKEN[i]] == OVERTAKEN[..i + 1] {
    }
    RunOn(OVERTAKEN[..1], OVERTAKEN[1]);
    RunOn(OVERTAKEN[..2], OVERTAKEN[2]);
    RunOn(OVERTAKEN[..3], OVERTAKEN[3]);
    RunOn(OVERTAKEN[..4], OVERTAKEN[4]);
    var q := After(EMPTY, OVERTAKEN);
    assert q == After(EMPTY, OVERTAKEN[..5]) && q.claims == ["b", "a"];
    assert RequestTime(q, q.claims[0]) == 1 && RequestTime(q, q.claims[1]) == 0;
  }

  /**
    * Claims go in order of request times exactly when no claimed command had come late: put into the
    * queue after one requested later had been claimed.
    */
  lemma ClaimedInOrderIff(steps: seq<Step>)
    requires ValidRun(EMPTY, steps)
    ensures ClaimsInOrder(After(EMPTY, steps)) <==> !SomeClaimCameLate(After(EMPTY, steps), steps)
  {
    ClaimsAreTold(steps);
  }
}
