/** The gateway: tables changed by one transaction at a time. */
module SqliteGateway {
  import opened Text
  import opened Records
  import opened Store

  /** What one transaction draws from its surroundings: `new_id` and `to_iso8601(utc_now())`. */
  datatype Draw = Draw(id: string, at: string)

  /**
   The database or the process may fail at any transaction: `remaining` more are committed, and
   the next one raises and changes nothing.
   */
  class Gateway {
    var runs: map<string, Run>
    var checkpoints: seq<Checkpoint>
    var approvals: seq<Approval>
    var auditEvents: seq<AuditEvent>
    var remaining: nat
    /** Every transaction committed so far, in order. */
    ghost var log: seq<Write>

    ghost function Tables(): Store
      reads this
    {
      Store(runs, checkpoints, approvals, auditEvents)
    }

    ghost predicate Valid()
      reads this
    {
      Tables() == ApplyAll(EMPTY, log) && Referential(Tables())
    }

    ghost predicate Kept(before: Store, logBefore: seq<Write>, remainingBefore: nat)
      reads this
    {
      Tables() == before && log == logBefore && remaining == remainingBefore
    }

    ghost predicate Grew(logBefore: seq<Write>, remainingBefore: nat, w: Write)
      reads this
    {
      log == logBefore + [w] && remaining == remainingBefore - 1
    }

    constructor (remaining: nat)
      ensures Valid() && log == [] && Tables() == EMPTY && this.remaining == remaining
    {
      runs, checkpoints, approvals, auditEvents, log := map[], [], [], [], [];
      this.remaining := remaining;
    }

    /** Committing one more transaction keeps the log and the keys right. */
    lemma Committing(w: Write)
      requires Valid() && KeysHold(Tables(), w)
      ensures Apply(Tables(), w) == ApplyAll(EMPTY, log + [w]) && Referential(Apply(Tables(), w))
    {
      ApplyAllSnoc(EMPTY, log, w);
      ApplyKeepsReferential(Tables(), w);
    }

    method CreateRun(draw: Draw, tenantId: string, userId: string, objective: string, inputPayload: JsonObject)
      returns (r: Result<Run>)
      requires Valid()
      modifies this
      ensures Valid()
      ensures
        var run := Run(draw.id, tenantId, userId, Pending, objective, inputPayload, map[], None, draw.at, draw.at);
        if old(remaining) == 0 then r == Failure(StorageError) && Kept(old(Tables()), old(log), old(remaining))
        else
          && r == Success(run) && Grew(old(log), old(remaining), InsertRun(run))
          && Tables() == old(Tables()).(runs := old(runs)[draw.id := run])
    {
      var run := Run(draw.id, tenantId, userId, Pending, objective, inputPayload, map[], None, draw.at, draw.at);
      if remaining == 0 {
        return Failure(StorageError);
      }
      Committing(InsertRun(run));
      runs, remaining := runs[draw.id := run], remaining - 1;
      log := log + [InsertRun(run)];
      r := Success(run);
    }

    method GetRun(runId: string) returns (run: Option<Run>)
      requires Valid()
      ensures run == FindRun(Tables(), runId)
      ensures run.Some? ==> run.value.id == runId
    {
      run := if runId in runs then Some(runs[runId]) else None;
    }

    method UpdateStatus(
      at: string, runId: string, status: RunStatus, outputPayload: Option<JsonObject>, errorMessage: Option<string>)
      returns (updated: Result<Run>)
      requires Valid()
      modifies this
      ensures Valid()
      ensures
        if runId !in old(runs) then
          updated == Failure(NotFoundError) && Kept(old(Tables()), old(log), old(remaining))
        else if old(remaining) == 0 then
          updated == Failure(StorageError) && Kept(old(Tables()), old(log), old(remaining))
        else
          && updated == Success(old(runs)[runId].(
               status := status, errorMessage := errorMessage, updatedAt := at,
               outputPayload := if outputPayload.Some? then outputPayload.value else old(runs)[runId].outputPayload))
          && Grew(old(log), old(remaining), UpdateRunStatus(runId, status, outputPayload, errorMessage, at))
          && Tables() == old(Tables()).(runs := old(runs)[runId := updated.value])
    {
      var existing := GetRun(runId);
      if existing.None? {
        return Failure(NotFoundError);
      }
      var nextOutput := if outputPayload.None? then existing.value.outputPayload else outputPayload.value;
      if remaining == 0 {
        return Failure(StorageError);
      }
      var run := existing.value.(
        status := status, outputPayload := nextOutput, errorMessage := errorMessage, updatedAt := at);
      Committing(UpdateRunStatus(runId, status, outputPayload, errorMessage, at));
      runs, remaining := runs[runId := run], remaining - 1;
      log := log + [UpdateRunStatus(runId, status, outputPayload, errorMessage, at)];
      updated := Success(run);
    }

    method AppendCheckpoint(draw: Draw, runId: string, state: CheckpointState) returns (r: Result<Checkpoint>)
      requires Valid()
      modifies this
      ensures Valid()
      ensures
        if runId !in old(runs) then r == Failure(IntegrityError) && Kept(old(Tables()), old(log), old(remaining))
        else if old(remaining) == 0 then r == Failure(StorageError) && Kept(old(Tables()), old(log), old(remaining))
        else
          && r == Success(Checkpoint(draw.id, runId, state, draw.at))
          && Grew(old(log), old(remaining), InsertCheckpoint(r.value))
          && Tables() == old(Tables()).(checkpoints := old(checkpoints) + [r.value])
    {
      if runId !in runs {
        return Failure(IntegrityError);
      }
      if remaining == 0 {
        return Failure(StorageError);
      }
      var checkpoint := Checkpoint(draw.id, runId, state, draw.at);
      Committing(InsertCheckpoint(checkpoint));
      checkpoints, remaining := checkpoints + [checkpoint], remaining - 1;
      log := log + [InsertCheckpoint(checkpoint)];
      r := Success(checkpoint);
    }

    method ListApprovals(runId: string) returns (rows: seq<Approval>)
      ensures rows == ListApprovalsForRun(Tables(), runId)
    {
      rows := ListApprovalsForRun(Store(runs, checkpoints, approvals, auditEvents), runId);
    }

    method ListCheckpoints(runId: string) returns (rows: seq<Checkpoint>)
      ensures rows == ListCheckpointsForRun(Tables(), runId)
    {
      rows := ListCheckpointsForRun(Store(runs, checkpoints, approvals, auditEvents), runId);
    }

    method ListEvents(runId: string) returns (rows: seq<AuditEvent>)
      ensures rows == ListEventsForRun(Tables(), runId)
    {
      rows := ListEventsForRun(Store(runs, checkpoints, approvals, auditEvents), runId);
    }

    /** Both changes are one transaction. */
    method MarkRunWaitingAndCreateApproval(draw: Draw, runId: string, requestedBy: string, reason: string)
      returns (r: Result<(Run, Approval)>)
      requires Valid()
      modifies this
      ensures Valid()
      ensures
        if runId !in old(runs) then r == Failure(NotFoundError) && Kept(old(Tables()), old(log), old(remaining))
        else if old(remaining) == 0 then r == Failure(StorageError) && Kept(old(Tables()), old(log), old(remaining))
        else
          && r.Success?
          && r.value.0 == old(runs)[runId].(status := WaitingApproval, updatedAt := draw.at)
          && r.value.1 == Approval(draw.id, runId, requestedBy, None, Undecided, reason, draw.at, None)
          && Grew(old(log), old(remaining), MarkWaiting(r.value.1, draw.at))
          && Tables() == old(Tables()).(runs := old(runs)[runId := r.value.0],
                                        approvals := old(approvals) + [r.value.1])
    {
      var existing := GetRun(runId);
      if existing.None? {
        return Failure(NotFoundError);
      }
      if remaining == 0 {
        return Failure(StorageError);
      }
      var run := existing.value.(status := WaitingApproval, updatedAt := draw.at);
      var approval := Approval(draw.id, runId, requestedBy, None, Undecided, reason, draw.at, None);
      Committing(MarkWaiting(approval, draw.at));
      runs, approvals, remaining := runs[runId := run], approvals + [approval], remaining - 1;
      log := log + [MarkWaiting(approval, draw.at)];
      r := Success((run, approval));
    }

    method DecideApproval(at: string, approvalId: string, approvedBy: string, status: ApprovalStatus, reason: string)
      returns (r: Result<Approval>)
      requires Valid()
      modifies this
      ensures Valid()
      ensures
        var existing := FindApproval(old(approvals), approvalId);
        var w := UpdateApproval(approvalId, approvedBy, status, reason, at);
        if existing.None? then r == Failure(NotFoundError) && Kept(old(Tables()), old(log), old(remaining))
        else if existing.value.status != Undecided then
          r == Failure(ConflictError) && Kept(old(Tables()), old(log), old(remaining))
        else if old(remaining) == 0 then r == Failure(StorageError) && Kept(old(Tables()), old(log), old(remaining))
        else
          && r == Success(existing.value.(
               approvedBy := Some(approvedBy), status := status, reason := reason, decidedAt := Some(at)))
          && Grew(old(log), old(remaining), w)
          && Tables() == old(Tables()).(approvals := approvals) && |approvals| == |old(approvals)|
          && (forall i | 0 <= i < |approvals| ::
                approvals[i] == if old(approvals)[i].id != approvalId then old(approvals)[i]
                                else old(approvals)[i].(approvedBy := Some(approvedBy), status := status,
                                                        reason := reason, decidedAt := Some(at)))
          && Tables() == Apply(old(Tables()), w)
          && r.value.id == approvalId && r.value.runId in runs
    {
      FindApprovalHasId(approvals, approvalId);
      var existing := FindApproval(approvals, approvalId);
      if existing.None? {
        return Failure(NotFoundError);
      }
      if existing.value.status != Undecided {
        return Failure(ConflictError);
      }
      if remaining == 0 {
        return Failure(StorageError);
      }
      Committing(UpdateApproval(approvalId, approvedBy, status, reason, at));
      approvals, remaining := DecideRows(approvals, approvalId, approvedBy, status, reason, at), remaining - 1;
      log := log + [UpdateApproval(approvalId, approvedBy, status, reason, at)];
      r := Success(Decided(existing.value, approvedBy, status, reason, at));
    }

    method FindByOperationId(operationId: string) returns (event: Option<AuditEvent>)
      ensures event == FindEventByOperationId(auditEvents, operationId)
    {
      event := FindEventByOperationId(auditEvents, operationId);
    }

    /** Refused by the unique index on `operation_id` or by the foreign key on `run_id`. */
    method AppendEvent(
      draw: Draw, tenantId: string, runId: Option<string>, actorUserId: Option<string>,
      body: EventBody, operationId: Option<string>)
      returns (r: Result<AuditEvent>)
      requires Valid()
      modifies this
      ensures Valid()
      ensures
        var refused := InsertEventError(old(Tables()), runId, operationId);
        if refused.Some? then r == Failure(refused.value) && Kept(old(Tables()), old(log), old(remaining))
        else if old(remaining) == 0 then r == Failure(StorageError) && Kept(old(Tables()), old(log), old(remaining))
        else
          && r == Success(AuditEvent(draw.id, tenantId, runId, actorUserId, body, operationId, draw.at))
          && Grew(old(log), old(remaining), InsertEvent(r.value))
          && Tables() == old(Tables()).(auditEvents := old(auditEvents) + [r.value])
    {
      if operationId.Some? && FindEventByOperationId(auditEvents, operationId.value).Some? {
        return Failure(ConflictError);
      }
      if runId.Some? && runId.value !in runs {
        return Failure(IntegrityError);
      }
      if remaining == 0 {
        return Failure(StorageError);
      }
      var event := AuditEvent(draw.id, tenantId, runId, actorUserId, body, operationId, draw.at);
      Committing(InsertEvent(event));
      auditEvents, remaining := auditEvents + [event], remaining - 1;
      log := log + [InsertEvent(event)];
      r := Success(event);
    }
  }
}
