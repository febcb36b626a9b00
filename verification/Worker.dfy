/** The command tables and one pass of the worker over them (`sqlite_store.py`, `worker.py`). */
module Worker {
  import opened Sequences
  import opened CommandQueue

  datatype CommandRow = CommandRow(requestedAt: int, status: Status)

  datatype AuditRow = AuditRow(id: Id, event: AuditEvent)

  /** The audit trail of one command. */
  function TrailOf(rows: seq<AuditRow>, id: Id): seq<AuditEvent> {
    if rows == [] then []
    else if rows[|rows| - 1].id == id then TrailOf(rows[..|rows| - 1], id) + [rows[|rows| - 1].event]
    else TrailOf(rows[..|rows| - 1], id)
  }

  lemma TrailNext(rows: seq<AuditRow>, id: Id, event: AuditEvent, other: Id)
    ensures TrailOf(rows + [AuditRow(id, event)], other)
         == if other == id then TrailOf(rows, other) + [event] else TrailOf(rows, other)
  {
    assert (rows + [AuditRow(id, event)])[..|rows|] == rows;
  }

  /** The row of a command holds the last of its statuses, the audit table its trail. */
  ghost predicate RowMatches(commands: map<Id, CommandRow>, audit: seq<AuditRow>, q: Queue, id: Id) {
    && (id in commands <==> id in q.commands)
    && (id !in commands ==> TrailOf(audit, id) == [])
    && (id in commands ==>
          var c := q.commands[id];
          c.statuses != [] && commands[id] == CommandRow(c.requestedAt, StatusOf(c)) && TrailOf(audit, id) == c.audit)
  }

  ghost predicate Represents(commands: map<Id, CommandRow>, audit: seq<AuditRow>, q: Queue) {
    AllTracked(q) && forall id :: RowMatches(commands, audit, q, id)
  }

  lemma StatusWritten(commands: map<Id, CommandRow>, audit: seq<AuditRow>, q: Queue, id: Id, status: Status, step: Step)
    requires Represents(commands, audit, q) && id in commands && CanStep(q, step)
    requires Next(q, step).commands == SetStatus(q, id, status)
    ensures Represents(commands[id := commands[id].(status := status)], audit, Next(q, step))
  {
    StepTracks(q, step);
    var rows, q' := commands[id := commands[id].(status := status)], Next(q, step);
    forall other ensures RowMatches(rows, audit, q', other) {
      assert RowMatches(commands, audit, q, other) && RowMatches(commands, audit, q, id);
    }
  }

  lemma AuditWritten(commands: map<Id, CommandRow>, audit: seq<AuditRow>, q: Queue, id: Id, event: AuditEvent,
                     step: Step)
    requires Represents(commands, audit, q) && id in commands && CanStep(q, step)
    requires Next(q, step).commands == AppendAudit(q, id, event)
    ensures Represents(commands, audit + [AuditRow(id, event)], Next(q, step))
  {
    StepTracks(q, step);
    var rows, q' := audit + [AuditRow(id, event)], Next(q, step);
    forall other ensures RowMatches(commands, rows, q', other) {
      assert RowMatches(commands, audit, q, other) && RowMatches(commands, audit, q, id);
      TrailNext(audit, id, event, other);
    }
  }

  lemma NothingWritten(commands: map<Id, CommandRow>, audit: seq<AuditRow>, q: Queue, step: Step)
    requires Represents(commands, audit, q) && CanStep(q, step)
      && (step.Execute? || (step.WriteOutcome? && q.worker.outcome == Success(false)))
    ensures Represents(commands, audit, Next(q, step))
  {
    StepTracks(q, step);
    forall id ensures RowMatches(commands, audit, Next(q, step), id) {
      assert RowMatches(commands, audit, q, id);
    }
  }

  lemma LogNext(log: seq<Step>, step: Step)
    requires ValidRun(EMPTY, log) && CanStep(After(EMPTY, log), step)
    ensures ValidRun(EMPTY, log + [step]) && After(EMPTY, log + [step]) == Next(After(EMPTY, log), step)
  {
    assert (log + [step])[..|log|] == log;
  }

  predicate IsOldest(commands: map<Id, CommandRow>, id: Id) {
    && id in commands && commands[id].status == Pending
    && forall other :: other in commands && commands[other].status == Pending ==>
         commands[id].requestedAt <= commands[other].requestedAt
  }

  /** An oldest pending row is running now, or no row is pending. */
  predicate ClaimedRow(before: map<Id, CommandRow>, claimed: Option<Id>, after: map<Id, CommandRow>) {
    match claimed
    case Some(id) => IsOldest(before, id) && after == before[id := before[id].(status := Running)]
    case None => after == before && forall id :: id in before ==> before[id].status != Pending
  }

  class CommandTables {
    var commands: map<Id, CommandRow>
    var audit: seq<AuditRow>
    /** Every step that was ever made on the tables. */
    ghost var log: seq<Step>

    ghost function Value(): Queue
      reads this`log
    {
      After(EMPTY, log)
    }

    ghost predicate Valid()
      reads this
    {
      ValidRun(EMPTY, log) && Represents(commands, audit, Value())
    }

    constructor ()
      ensures Valid() && log == []
    {
      commands, audit, log := map[], [], [];
    }

    method EnqueueCommand(id: Id, requestedAt: int)
      requires Valid() && id !in commands
      modifies this
      ensures Valid() && log == old(log) + [Enqueue(id, requestedAt)]
      ensures commands == old(commands)[id := CommandRow(requestedAt, Pending)] && audit == old(audit)
    {
      ghost var q, step := Value(), Enqueue(id, requestedAt);
      assert RowMatches(commands, audit, q, id);
      StepTracks(q, step);
      LogNext(log, step);
      log := log + [step];
      ghost var before := commands;
      commands := commands[id := CommandRow(requestedAt, Pending)];
      forall other ensures RowMatches(commands, audit, Value(), other) {
        assert RowMatches(before, audit, q, other);
      }
    }

    /** The oldest pending command, now running. */
    method ClaimNextCommand() returns (claimed: Option<Id>)
      requires Valid() && Value().worker.Idle?
      modifies this
      ensures Valid()
      ensures claimed.None? ==> log == old(log) && forall id :: !IsPending(Value(), id)
      ensures claimed.Some? ==> claimed.value in commands && log == old(log) + [Claim(claimed.value)]
      ensures audit == old(audit) && ClaimedRow(old(commands), claimed, commands)
    {
      claimed := None;
      var todo := commands.Keys;
      while todo != {}
        invariant todo <= commands.Keys
        invariant claimed.None? ==> forall id :: id in commands && commands[id].status == Pending ==> id in todo
        invariant claimed.Some? ==>
          && claimed.value in commands && commands[claimed.value].status == Pending
          && forall id :: id in commands && commands[id].status == Pending && id !in todo ==>
               commands[claimed.value].requestedAt <= commands[id].requestedAt
        decreases todo
      {
        var id :| id in todo;
        todo := todo - {id};
        if commands[id].status.Pending?
          && (claimed.None? || commands[id].requestedAt < commands[claimed.value].requestedAt) {
          claimed := Some(id);
        }
      }
      PendingRows(commands, audit, Value());
      if claimed.Some? {
        UpdateStatus(claimed.value, Running, Claim(claimed.value));
      }
    }

    /** `UPDATE command_requests SET status = ...`, in the step that does so. */
    method UpdateStatus(id: Id, status: Status, ghost step: Step)
      requires Valid() && id in commands && CanStep(Value(), step)
      requires Next(Value(), step).commands == SetStatus(Value(), id, status)
      modifies this
      ensures Valid() && log == old(log) + [step] && audit == old(audit)
      ensures commands == old(commands)[id := old(commands)[id].(status := status)]
      ensures Value() == Next(old(Value()), step)
    {
      StatusWritten(commands, audit, Value(), id, status, step);
      LogNext(log, step);
      log := log + [step];
      commands := commands[id := commands[id].(status := status)];
    }

    method AppendAuditRow(id: Id, event: AuditEvent, ghost step: Step)
      requires Valid() && id in commands && CanStep(Value(), step)
      requires Next(Value(), step).commands == AppendAudit(Value(), id, event)
      modifies this
      ensures Valid() && log == old(log) + [step] && commands == old(commands)
      ensures audit == old(audit) + [AuditRow(id, event)]
      ensures Value() == Next(old(Value()), step)
    {
      AuditWritten(commands, audit, Value(), id, event, step);
      LogNext(log, step);
      log := log + [step];
      audit := audit + [AuditRow(id, event)];
    }

    /** A step that writes no row: an executor starts, or a result turns out not to be writable. */
    ghost method NoRow(step: Step)
      requires Valid() && CanStep(Value(), step)
      requires step.Execute? || (step.WriteOutcome? && Value().worker.outcome == Success(false))
      modifies this`log
      ensures Valid() && log == old(log) + [step] && Value() == Next(old(Value()), step)
    {
      NothingWritten(commands, audit, Value(), step);
      LogNext(log, step);
      log := log + [step];
    }
  }

  lemma PendingStatus(commands: map<Id, CommandRow>, audit: seq<AuditRow>, q: Queue, id: Id)
    requires Represents(commands, audit, q)
    ensures IsPending(q, id) <==> id in commands && commands[id].status == Pending
    ensures id in commands ==> id in q.commands && commands[id].requestedAt == q.commands[id].requestedAt
  {
    assert Tracked(q, id) && RowMatches(commands, audit, q, id);
  }

  /** A row is pending just when the command is. */
  lemma PendingRows(commands: map<Id, CommandRow>, audit: seq<AuditRow>, q: Queue)
    requires Represents(commands, audit, q)
    ensures forall id :: IsPending(q, id) <==> id in commands && commands[id].status == Pending
    ensures forall id :: IsOldest(commands, id) ==> Oldest(q, id)
  {
    forall id ensures IsPending(q, id) <==> id in commands && commands[id].status == Pending {
      PendingStatus(commands, audit, q, id);
    }
    forall id | IsOldest(commands, id) ensures Oldest(q, id) {
      PendingStatus(commands, audit, q, id);
      forall other | IsPending(q, other) ensures q.commands[id].requestedAt <= q.commands[other].requestedAt {
        PendingStatus(commands, audit, q, other);
      }
    }
  }

  /** The steps of one pass. */
  function PassSteps(id: Id, outcome: Outcome): seq<Step> {
    [Claim(id), WriteStarted, Execute(outcome)] + Ending(outcome)
  }

  function Ending(outcome: Outcome): seq<Step> {
    if outcome == Success(false) then [Complete, WriteOutcome, Complete, WriteOutcome] else [Complete, WriteOutcome]
  }

  /** The one row in hand is where its execution took it, and the trail tells of its start and its end. */
  predicate Finished(before: map<Id, CommandRow>, id: Id, outcome: Outcome, after: map<Id, CommandRow>,
                     told: seq<AuditRow>) {
    && id in before
    && if outcome == Success(true)
       then after == before[id := before[id].(status := Succeeded)] && told == [AuditRow(id, AuditSucceeded)]
       else after == before[id := before[id].(status := Failed)] && told == [AuditRow(id, AuditFailed)]
  }

  /** `process_next_command`; `execute` stands for the executors. */
  method ProcessNextCommand(tables: CommandTables, execute: Id -> Outcome)
    returns (processed: bool, ghost id: Id, ghost told: seq<AuditRow>)
    requires tables.Valid() && tables.Value().worker.Idle?
    modifies tables
    ensures tables.Valid() && tables.Value().worker.Idle?
    ensures tables.log == old(tables.log) + if processed then PassSteps(id, execute(id)) else []
    ensures !processed ==>
      && (forall other :: !IsPending(tables.Value(), other))
      && ClaimedRow(old(tables.commands), None, tables.commands) && tables.audit == old(tables.audit)
    ensures processed ==>
      && IsOldest(old(tables.commands), id)
      && Finished(old(tables.commands), id, execute(id), tables.commands, told)
      && tables.audit == old(tables.audit) + [AuditRow(id, AuditStarted)] + told
  {
    id, told := "", [];
    var claimed := tables.ClaimNextCommand();
    if claimed.None? {
      return false, id, told;
    }
    id := claimed.value;
    processed := true;
    told := ExecuteClaimed(tables, claimed.value, execute);
  }

  /** What follows a claim. */
  method ExecuteClaimed(tables: CommandTables, id: Id, execute: Id -> Outcome) returns (ghost told: seq<AuditRow>)
    requires tables.Valid() && id in tables.commands && tables.Value().worker == Claimed(id)
    modifies tables
    ensures tables.Valid() && tables.Value().worker.Idle?
    ensures tables.log == old(tables.log) + PassSteps(id, execute(id))[1..]
    ensures Finished(old(tables.commands), id, execute(id), tables.commands, told)
    ensures tables.audit == old(tables.audit) + [AuditRow(id, AuditStarted)] + told
  {
    tables.AppendAuditRow(id, AuditStarted, WriteStarted);
    var outcome := execute(id);
    tables.NoRow(Execute(outcome));
    told := Conclude(tables, id, outcome);
  }

  /** The writes after an execution, and those after a result that could not be written. */
  method Conclude(tables: CommandTables, id: Id, outcome: Outcome) returns (ghost told: seq<AuditRow>)
    requires tables.Valid() && id in tables.commands && tables.Value().worker == Ran(id, outcome)
    modifies tables
    ensures tables.Valid() && tables.Value().worker.Idle?
    ensures tables.log == old(tables.log) + Ending(outcome)
    ensures Finished(old(tables.commands), id, outcome, tables.commands, told)
    ensures tables.audit == old(tables.audit) + told
  {
    if outcome.Success? {
      tables.UpdateStatus(id, Succeeded, Complete);
      if outcome.auditable {
        tables.AppendAuditRow(id, AuditSucceeded, WriteOutcome);
        return [AuditRow(id, AuditSucceeded)];
      }
      tables.NoRow(WriteOutcome);
    }
    Fail(tables, id);
    told := [AuditRow(id, AuditFailed)];
  }

  /** The handler of a failure. */
  method Fail(tables: CommandTables, id: Id)
    requires tables.Valid() && id in tables.commands
    requires var w := tables.Value().worker; w == AuditRaised(id) || (w.Ran? && w.id == id && !w.outcome.Success?)
    modifies tables
    ensures tables.Valid() && tables.Value().worker.Idle?
    ensures tables.log == old(tables.log) + [Complete, WriteOutcome]
    ensures tables.commands == old(tables.commands)[id := old(tables.commands)[id].(status := Failed)]
    ensures tables.audit == old(tables.audit) + [AuditRow(id, AuditFailed)]
  {
    tables.UpdateStatus(id, Failed, Complete);
    tables.AppendAuditRow(id, AuditFailed, WriteOutcome);
  }
}
