/** The command queue, its API side and its one worker, which may crash (`worker.py`, `api.py`, `sqlite_store.py`). */
module CommandQueue {
  import opened Sequences

  type Id = string

  datatype Status = Pending | Running | Succeeded | Failed

  datatype AuditEvent = AuditQueued | AuditStarted | AuditSucceeded | AuditFailed

  /** `statuses` are all the row ever had, `starts` how often its executor was started. */
  datatype Command = Command(requestedAt: int, statuses: seq<Status>, starts: nat, audit: seq<AuditEvent>)

  /** How an execution ends; a result that cannot be written to the audit table makes a success fail. */
  datatype Outcome = Success(auditable: bool) | ExecutorRaised | NoExecutor

  /** How far the worker is with the command it claimed. */
  datatype Worker =
    | Idle
    | Claimed(id: Id)
    | Begun(id: Id)
    | Ran(id: Id, outcome: Outcome)
    | Completed(id: Id, outcome: Outcome)
    | AuditRaised(id: Id)

  datatype Queue = Queue(commands: map<Id, Command>, worker: Worker, claims: seq<Id>)

  const EMPTY := Queue(map[], Idle, [])

  /** The store writes of the API and of the worker, the start of an executor, and a crash. */
  datatype Step =
    | Enqueue(id: Id, requestedAt: int)
    | WriteQueued(id: Id)
    | Claim(id: Id)
    | WriteStarted
    | Execute(outcome: Outcome)
    | Complete
    | WriteOutcome
    | Crash

  function StatusOf(c: Command): Status
    requires c.statuses != []
  {
    c.statuses[|c.statuses| - 1]
  }

  predicate IsPending(q: Queue, id: Id) {
    id in q.commands && q.commands[id].statuses == [Pending]
  }

  /** Pending, and no pending command was requested earlier. */
  ghost predicate Oldest(q: Queue, id: Id) {
    IsPending(q, id)
    && forall other :: IsPending(q, other) ==>
         q.commands[id].requestedAt <= q.commands[other].requestedAt
  }

  ghost predicate CanStep(q: Queue, step: Step) {
    match step
    case Enqueue(id, _) => id !in q.commands
    case WriteQueued(id) => id in q.commands && AuditQueued !in q.commands[id].audit
    case Claim(id) => q.worker.Idle? && Oldest(q, id)
    case WriteStarted => q.worker.Claimed?
    case Execute(_) => q.worker.Begun?
    case Complete => q.worker.Ran? || q.worker.AuditRaised?
    case WriteOutcome => q.worker.Completed?
    case Crash => true
  }

  function SetStatus(q: Queue, id: Id, status: Status): map<Id, Command> {
    if id in q.commands then q.commands[id := q.commands[id].(statuses := q.commands[id].statuses + [status])]
      else q.commands
  }

  function AppendAudit(q: Queue, id: Id, event: AuditEvent): map<Id, Command> {
    if id in q.commands then q.commands[id := q.commands[id].(audit := q.commands[id].audit + [event])] else q.commands
  }

  function Next(q: Queue, step: Step): Queue {
    match step
    case Enqueue(id, at) => q.(commands := q.commands[id := Command(at, [Pending], 0, [])])
    case WriteQueued(id) => q.(commands := AppendAudit(q, id, AuditQueued))
    case Claim(id) => Queue(SetStatus(q, id, Running), Claimed(id), q.claims + [id])
    case WriteStarted =>
      if q.worker.Claimed?
        then q.(commands := AppendAudit(q, q.worker.id, AuditStarted), worker := Begun(q.worker.id)) else q
    case Execute(outcome) =>
      if !q.worker.Begun? then q
      else
        var id := q.worker.id;
        Queue(if outcome.NoExecutor? || id !in q.commands then q.commands
              else q.commands[id := q.commands[id].(starts := q.commands[id].starts + 1)],
              Ran(id, outcome), q.claims)
    case Complete =>
      if q.worker.Ran? then
        var status := if q.worker.outcome.Success? then Succeeded else Failed;
        q.(commands := SetStatus(q, q.worker.id, status), worker := Completed(q.worker.id, q.worker.outcome))
      else if q.worker.AuditRaised? then
        q.(commands := SetStatus(q, q.worker.id, Failed), worker := Completed(q.worker.id, ExecutorRaised))
      else q
    case WriteOutcome =>
      if !q.worker.Completed? then q
      else if q.worker.outcome == Success(false) then q.(worker := AuditRaised(q.worker.id))
      else
        var event := if q.worker.outcome.Success? then AuditSucceeded else AuditFailed;
        q.(commands := AppendAudit(q, q.worker.id, event), worker := Idle)
    case Crash => q.(worker := Idle)
  }

  function After(q: Queue, steps: seq<Step>): Queue {
    if steps == [] then q else Next(After(q, steps[..|steps| - 1]), steps[|steps| - 1])
  }

  ghost predicate ValidRun(q: Queue, steps: seq<Step>) {
    steps != [] ==>
      ValidRun(q, steps[..|steps| - 1]) && CanStep(After(q, steps[..|steps| - 1]), steps[|steps| - 1])
  }

  /** The worker's part of an audit trail. */
  function Worked(audit: seq<AuditEvent>): seq<AuditEvent> {
    Filter(audit, (event: AuditEvent) => event != AuditQueued)
  }

  predicate Fell(c: Command) {
    c.statuses == [Pending, Running, Failed] || c.statuses == [Pending, Running, Succeeded, Failed]
  }

  /** What a command looks like that nobody is working on. */
  ghost predicate Parked(c: Command) {
    || (c.statuses == [Pending] && c.starts == 0 && Worked(c.audit) == [])
    || (c.statuses == [Pending, Running] && c.starts <= 1 && (Worked(c.audit) == [] ==> c.starts == 0)
        && (Worked(c.audit) == [] || Worked(c.audit) == [AuditStarted]))
    || (c.statuses == [Pending, Running, Succeeded] && c.starts == 1
        && (Worked(c.audit) == [AuditStarted] || Worked(c.audit) == [AuditStarted, AuditSucceeded]))
    || (Fell(c) && c.starts <= 1
        && (Worked(c.audit) == [AuditStarted] || Worked(c.audit) == [AuditStarted, AuditFailed]))
  }

  /** What the command looks like that the worker is at. */
  ghost predicate InHand(c: Command, w: Worker)
    requires !w.Idle?
  {
    match w
    case Claimed(_) => c.statuses == [Pending, Running] && c.starts == 0 && Worked(c.audit) == []
    case Begun(_) => c.statuses == [Pending, Running] && c.starts == 0 && Worked(c.audit) == [AuditStarted]
    case Ran(_, outcome) =>
      && c.statuses == [Pending, Running] && Worked(c.audit) == [AuditStarted]
      && c.starts == if outcome.NoExecutor? then 0 else 1
    case Completed(_, outcome) =>
      && Worked(c.audit) == [AuditStarted]
      && (if outcome.Success? then c.statuses == [Pending, Running, Succeeded] && c.starts == 1
          else Fell(c) && c.starts <= 1)
    case AuditRaised(_) =>
      c.statuses == [Pending, Running, Succeeded] && c.starts == 1 && Worked(c.audit) == [AuditStarted]
  }

  ghost predicate Tracked(q: Queue, id: Id) {
    id in q.commands ==>
      && |Filter(q.commands[id].audit, (event: AuditEvent) => event == AuditQueued)| <= 1
      && Parked(q.commands[id])
      && (!q.worker.Idle? && q.worker.id == id ==> InHand(q.commands[id], q.worker))
  }

  ghost predicate AllTracked(q: Queue) {
    && (forall id :: Tracked(q, id))
    && (!q.worker.Idle? ==> q.worker.id in q.commands)
  }

  lemma WorkedNext(audit: seq<AuditEvent>, event: AuditEvent)
    ensures Worked(audit + [event]) == if event == AuditQueued then Worked(audit) else Worked(audit) + [event]
    ensures var queued := (e: AuditEvent) => e == AuditQueued;
            Filter(audit + [event], queued) ==
              if event == AuditQueued then Filter(audit, queued) + [event] else Filter(audit, queued)
    ensures var queued := (e: AuditEvent) => e == AuditQueued; AuditQueued !in audit ==> Filter(audit, queued) == []
  {
    var queued := (e: AuditEvent) => e == AuditQueued;
    FilterAppend(audit, [event], (e: AuditEvent) => e != AuditQueued);
    FilterOne(event, (e: AuditEvent) => e != AuditQueued);
    FilterAppend(audit, [event], queued);
    FilterOne(event, queued);
    if AuditQueued !in audit {
      FilterNone(audit, queued);
    }
  }

  /** Every step keeps every command on track. */
  lemma StepTracks(q: Queue, step: Step)
    requires AllTracked(q) && CanStep(q, step)
    ensures AllTracked(Next(q, step))
  {
    forall id ensures Tracked(Next(q, step), id) {
      TrackedNext(q, step, id);
    }
  }

  lemma TrackedNext(q: Queue, step: Step, id: Id)
    requires AllTracked(q) && CanStep(q, step)
    ensures Tracked(Next(q, step), id)
  {
    assert Tracked(q, id);
    match step {
      case Enqueue(_, _) =>
      case WriteQueued(other) =>
        if other == id {
          WorkedNext(q.commands[id].audit, AuditQueued);
        }
      case Claim(_) =>
      case WriteStarted => StartedTracked(q, id);
      case Execute(_) =>
      case Complete => CompletedTracked(q, id);
      case WriteOutcome => OutcomeTracked(q, id);
      case Crash =>
    }
  }

  lemma StartedTracked(q: Queue, id: Id)
    requires AllTracked(q) && q.worker.Claimed?
    ensures Tracked(Next(q, WriteStarted), id)
  {
    assert Tracked(q, id);
    if id == q.worker.id {
      WorkedNext(q.commands[id].audit, AuditStarted);
    }
  }

  lemma CompletedTracked(q: Queue, id: Id)
    requires AllTracked(q) && (q.worker.Ran? || q.worker.AuditRaised?)
    ensures Tracked(Next(q, Complete), id)
  {
    assert Tracked(q, id);
  }

  lemma OutcomeTracked(q: Queue, id: Id)
    requires AllTracked(q) && q.worker.Completed?
    ensures Tracked(Next(q, WriteOutcome), id)
  {
    assert Tracked(q, id);
    if id == q.worker.id {
      WorkedNext(q.commands[id].audit, if q.worker.outcome.Success? then AuditSucceeded else AuditFailed);
    }
  }

  lemma {:induction false} RunTracks(steps: seq<Step>)
    requires ValidRun(EMPTY, steps)
    ensures AllTracked(After(EMPTY, steps))
  {
    if steps != [] {
      RunTracks(steps[..|steps| - 1]);
      StepTracks(After(EMPTY, steps[..|steps| - 1]), steps[|steps| - 1]);
    }
  }

  /** In every run an executor starts at most once per command. */
  lemma ExecutorStartsOnce(steps: seq<Step>, id: Id)
    requires ValidRun(EMPTY, steps) && id in After(EMPTY, steps).commands
    ensures After(EMPTY, steps).commands[id].starts <= 1
  {
    RunTracks(steps);
    assert Tracked(After(EMPTY, steps), id);
  }
}
