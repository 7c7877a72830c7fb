/** The rows of the run, checkpoint, approval and audit tables, and the errors services raise. */
module Records {
  import opened Text

  datatype Json =
    | Null
    | Bool(b: bool)
    | Number(n: int)
    | Str(s: string)
    | List(items: seq<Json>)
    | Object(fields: map<string, Json>)

  type JsonObject = map<string, Json>

  datatype RunStatus = Pending | Running | Interrupted | WaitingApproval | Completed | Failed | Canceled

  datatype ApprovalStatus = Undecided | Approved | Denied

  /** The domain errors, plus those that surface as internal errors: a row that names a missing
      run, a transaction that was not committed, a payload without a key, a text that is no timestamp. */
  datatype Error =
    | NotFoundError
    | ConflictError
    | PolicyDeniedError(policyStatus: ApprovalStatus)
    | UnauthorizedError
    | IntegrityError
    | StorageError
    | KeyError
    | ValueError

  datatype Result<+T> = Success(value: T) | Failure(error: Error)

  /** Timestamps are kept as the table keeps them: the text written by `to_iso8601`. */
  datatype Run = Run(
    id: string, tenantId: string, userId: string, status: RunStatus, objective: string,
    inputPayload: JsonObject, outputPayload: JsonObject, errorMessage: Option<string>,
    createdAt: string, updatedAt: string)

  /** A checkpoint's type together with its state payload. */
  datatype CheckpointState =
    | CreatedState(engine: string, objective: string, inputPayload: JsonObject, steps: seq<string>)
    | ResumedState(previousStatus: RunStatus, resumeReason: string, steps: seq<string>)
    | InterruptedState(reason: string)
    | RetriedState(reason: string)
    | CanceledState(reason: string)

  datatype Checkpoint = Checkpoint(id: string, runId: string, state: CheckpointState, createdAt: string)

  datatype Approval = Approval(
    id: string, runId: string, requestedBy: string, approvedBy: Option<string>,
    status: ApprovalStatus, reason: string, createdAt: string, decidedAt: Option<string>)

  /** An event's type together with its payload. */
  datatype EventBody =
    | RunCreated(objective: string, inputPayload: JsonObject)
    | RunResumed(reason: string, fromStatus: RunStatus)
    | RunInterrupted(reason: string)
    | RunRetried(reason: string)
    | RunCanceled(reason: string)
    | RunWaitingApproval(reason: string)
    | ApprovalRequested(approvalId: string, reason: string)
    | ApprovalDecided(approvalId: string, status: ApprovalStatus, reason: string)
    | ToolExecuted(toolName: string, input: JsonObject, result: Json, success: bool, executedAt: Json)
    | OtherEvent(eventType: string, payload: JsonObject)

  datatype AuditEvent = AuditEvent(
    id: string, tenantId: string, runId: Option<string>, actorUserId: Option<string>,
    body: EventBody, operationId: Option<string>, createdAt: string)

  function CheckpointKey(c: Checkpoint): string { c.createdAt }

  function ApprovalKey(a: Approval): string { a.createdAt }

  function EventKey(e: AuditEvent): string { e.createdAt }
}
