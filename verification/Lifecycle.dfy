/**
 What each lifecycle operation reads and writes.

 An operation makes all its reads before its first transaction; `Plan` is the error it raises
 or the transactions it commits, in order. A process that stops early has committed a prefix.
 */
module Lifecycle {
  import opened Text
  import opened Records
  import opened Store
  import opened SqliteGateway

  datatype Operation =
    | Create(tenantId: string, userId: string, objective: string, inputPayload: JsonObject)
    | Resume(runId: string, actor: string, reason: string)
    | Interrupt(runId: string, actor: string, reason: string)
    | Retry(runId: string, actor: string, reason: string)
    | Cancel(runId: string, actor: string, reason: string)
    | RequestApproval(runId: string, actor: string, tenantId: string, reason: string)
    | DecideApproval(approvalId: string, tenantId: string, approver: string, approve: bool, reason: string)
    /** An event recorded by another service (tools, authentication). */
    | Record(
        tenantId: string, about: Option<string>, recorder: Option<string>, body: EventBody, operationId: Option<string>)

  /** An operation with the ids and clock readings its transactions will draw. */
  datatype Call = Call(op: Operation, d0: Draw, d1: Draw, d2: Draw)

  /** Bodies that belong to runs and approvals; other services record none of these. */
  predicate IsLifecycle(body: EventBody) {
    !body.ToolExecuted? && !body.OtherEvent?
  }

  predicate WellFormed(c: Call) {
    c.op.Record? ==> !IsLifecycle(c.op.body)
  }

  /** `assert_resume_allowed`: the error raised, if any, given the run's approvals. */
  function ResumeDenial(approvals: seq<Approval>): Option<Error> {
    if approvals == [] then None
    else
      match approvals[|approvals| - 1].status
      case Approved => None
      case Undecided => Some(PolicyDeniedError(Undecided))
      case Denied => Some(PolicyDeniedError(Denied))
  }

  function Event(d: Draw, tenantId: string, runId: string, actor: string, body: EventBody): Write {
    InsertEvent(AuditEvent(d.id, tenantId, Some(runId), Some(actor), body, None, d.at))
  }

  predicate IsTransition(op: Operation) {
    op.Resume? || op.Interrupt? || op.Retry? || op.Cancel?
  }

  predicate OnRun(op: Operation) {
    IsTransition(op) || op.RequestApproval?
  }

  /** The three transactions of resume, interrupt, retry and cancel. */
  function Transition(run: Run, c: Call, status: RunStatus, state: CheckpointState, body: EventBody)
    : Result<seq<Write>>
    requires IsTransition(c.op)
  {
    Success([
      UpdateRunStatus(c.op.runId, status, None, None, c.d0.at),
      InsertCheckpoint(Checkpoint(c.d1.id, c.op.runId, state, c.d1.at)),
      Event(c.d2, run.tenantId, run.id, c.op.actor, body)])
  }

  function PlanCreate(c: Call): Result<seq<Write>>
    requires c.op.Create?
  {
    var Create(tenantId, userId, objective, input) := c.op;
    var run := Run(c.d0.id, tenantId, userId, Pending, objective, input, map[], None, c.d0.at, c.d0.at);
    Success([
      InsertRun(run),
      InsertCheckpoint(Checkpoint(c.d1.id, run.id, InitialState(objective, input), c.d1.at)),
      Event(c.d2, tenantId, run.id, userId, RunCreated(objective, input))])
  }

  /** `build_initial_state` without LangGraph installed. */
  function InitialState(objective: string, inputPayload: JsonObject): CheckpointState {
    CreatedState("fallback-local", objective, inputPayload, ["created"])
  }

  function ResumeState(currentStatus: RunStatus, reason: string): CheckpointState {
    ResumedState(currentStatus, reason, ["resumed"])
  }

  function PlanResume(run: Run, approvals: seq<Approval>, c: Call): Result<seq<Write>>
    requires c.op.Resume?
  {
    if run.status in {Canceled, Completed, Failed} then Failure(ConflictError)
    else
      match ResumeDenial(approvals)
      case Some(e) => Failure(e)
      case None =>
        Transition(run, c, Running, ResumeState(run.status, c.op.reason),
                   RunResumed(c.op.reason, run.status))
  }

  function PlanInterrupt(run: Run, c: Call): Result<seq<Write>>
    requires c.op.Interrupt?
  {
    if run.status in {Canceled, Completed, Failed} then Failure(ConflictError)
    else Transition(run, c, Interrupted, InterruptedState(c.op.reason), RunInterrupted(c.op.reason))
  }

  function PlanRetry(run: Run, c: Call): Result<seq<Write>>
    requires c.op.Retry?
  {
    if run.status in {Canceled, Completed} then Failure(ConflictError)
    else Transition(run, c, Pending, RetriedState(c.op.reason), RunRetried(c.op.reason))
  }

  function PlanCancel(run: Run, c: Call): Result<seq<Write>>
    requires c.op.Cancel?
  {
    if run.status in {Canceled, Completed, Failed} then Failure(ConflictError)
    else Transition(run, c, Canceled, CanceledState(c.op.reason), RunCanceled(c.op.reason))
  }

  function PlanRequest(run: Run, approvals: seq<Approval>, c: Call): Result<seq<Write>>
    requires c.op.RequestApproval?
  {
    var RequestApproval(runId, actor, tenantId, reason) := c.op;
    if run.status in {Completed, Canceled, Failed} then Failure(ConflictError)
    else if approvals != [] && approvals[|approvals| - 1].status == Undecided then Failure(ConflictError)
    else
      var a := Approval(c.d0.id, runId, actor, None, Undecided, reason, c.d0.at, None);
      Success([
        MarkWaiting(a, c.d0.at),
        Event(c.d1, tenantId, run.id, actor, RunWaitingApproval(reason)),
        Event(c.d2, tenantId, run.id, actor, ApprovalRequested(a.id, reason))])
  }

  function PlanDecide(existing: Option<Approval>, c: Call): Result<seq<Write>>
    requires c.op.DecideApproval?
  {
    var DecideApproval(approvalId, tenantId, approver, approve, reason) := c.op;
    if existing.None? then Failure(NotFoundError)
    else if existing.value.status != Undecided then Failure(ConflictError)
    else
      var decision := if approve then Approved else Denied;
      Success([
        UpdateApproval(approvalId, approver, decision, reason, c.d0.at),
        Event(c.d1, tenantId, existing.value.runId, approver, ApprovalDecided(existing.value.id, decision, reason))])
  }

  function PlanRecord(s: Store, c: Call): Result<seq<Write>>
    requires c.op.Record?
  {
    var Record(tenantId, about, recorder, body, operationId) := c.op;
    match InsertEventError(s, about, operationId)
    case Some(e) => Failure(e)
    case None => Success([InsertEvent(AuditEvent(c.d0.id, tenantId, about, recorder, body, operationId, c.d0.at))])
  }

  /** The outcome of a call started in `s`. */
  function Plan(s: Store, c: Call): Result<seq<Write>> {
    match c.op
    case Create(_, _, _, _) => PlanCreate(c)
    case DecideApproval(approvalId, _, _, _, _) => PlanDecide(FindApproval(s.approvals, approvalId), c)
    case Record(_, _, _, _, _) => PlanRecord(s, c)
    case _ =>
      match FindRun(s, c.op.runId)
      case None => Failure(NotFoundError)
      case Some(run) => PlanOnRun(run, ListApprovalsForRun(s, c.op.runId), c)
  }

  function PlanOnRun(run: Run, approvals: seq<Approval>, c: Call): Result<seq<Write>>
    requires OnRun(c.op)
  {
    match c.op
    case Resume(_, _, _) => PlanResume(run, approvals, c)
    case Interrupt(_, _, _) => PlanInterrupt(run, c)
    case Retry(_, _, _) => PlanRetry(run, c)
    case Cancel(_, _, _) => PlanCancel(run, c)
    case RequestApproval(_, _, _, _) => PlanRequest(run, approvals, c)
  }

  /** The transactions of a call that runs to its end. */
  function Writes(s: Store, c: Call): seq<Write> {
    match Plan(s, c)
    case Success(ws) => ws
    case Failure(_) => []
  }
}
