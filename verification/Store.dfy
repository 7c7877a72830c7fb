/** The tables as a value, the gateway's queries on them and its transactions. */
module Store {
  import opened Text
  import opened Queries
  import opened Records

  datatype Store = Store(
    runs: map<string, Run>, checkpoints: seq<Checkpoint>,
    approvals: seq<Approval>, auditEvents: seq<AuditEvent>)

  const EMPTY := Store(map[], [], [], [])

  // ---------------------------------------------------------------- queries

  function CheckpointOf(runId: string): Checkpoint -> bool { (c: Checkpoint) => c.runId == runId }

  function ApprovalOf(runId: string): Approval -> bool { (a: Approval) => a.runId == runId }

  function EventOf(runId: string): AuditEvent -> bool { (e: AuditEvent) => e.runId == Some(runId) }

  function EventOfTenant(tenantId: string): AuditEvent -> bool { (e: AuditEvent) => e.tenantId == tenantId }

  function FindRun(s: Store, runId: string): Option<Run> {
    if runId in s.runs then Some(s.runs[runId]) else None
  }

  function ListCheckpointsForRun(s: Store, runId: string): seq<Checkpoint> {
    OrderBy(Where(s.checkpoints, CheckpointOf(runId)), CheckpointKey)
  }

  function ListApprovalsForRun(s: Store, runId: string): seq<Approval> {
    OrderBy(Where(s.approvals, ApprovalOf(runId)), ApprovalKey)
  }

  function ListEventsForRun(s: Store, runId: string): seq<AuditEvent> {
    OrderBy(Where(s.auditEvents, EventOf(runId)), EventKey)
  }

  /** The latest `limit` events of a tenant, oldest first. */
  function ListRecentEventsForTenant(events: seq<AuditEvent>, tenantId: string, limit: nat): seq<AuditEvent> {
    Latest(OrderBy(Where(events, EventOfTenant(tenantId)), EventKey), limit)
  }

  function FindApproval(rows: seq<Approval>, approvalId: string): Option<Approval> {
    if rows == [] then None
    else if rows[0].id == approvalId then Some(rows[0])
    else FindApproval(rows[1..], approvalId)
  }

  lemma {:induction false} FindApprovalHasId(rows: seq<Approval>, approvalId: string)
    ensures FindApproval(rows, approvalId).Some? ==>
      FindApproval(rows, approvalId).value in rows && FindApproval(rows, approvalId).value.id == approvalId
    ensures FindApproval(rows, approvalId).None? <==> forall a <- rows :: a.id != approvalId
  {
    if rows != [] {
      FindApprovalHasId(rows[1..], approvalId);
      assert rows == [rows[0]] + rows[1..];
    }
  }

  function FindEventByOperationId(rows: seq<AuditEvent>, operationId: string): (r: Option<AuditEvent>)
    ensures r.Some? ==> r.value in rows && r.value.operationId == Some(operationId)
    ensures r.None? <==> forall e <- rows :: e.operationId != Some(operationId)
  {
    if rows == [] then None
    else if rows[0].operationId == Some(operationId) then Some(rows[0])
    else FindEventByOperationId(rows[1..], operationId)
  }

  /** What `get_run_view` shows of one run. */
  datatype RunView = RunView(
    run: Option<Run>, checkpoints: seq<Checkpoint>, approvals: seq<Approval>, auditEvents: seq<AuditEvent>)

  function ViewOf(s: Store, runId: string): RunView {
    RunView(FindRun(s, runId), ListCheckpointsForRun(s, runId),
            ListApprovalsForRun(s, runId), ListEventsForRun(s, runId))
  }

  /** The unique index on `operation_id` and the foreign key on `run_id`. */
  function InsertEventError(s: Store, runId: Option<string>, operationId: Option<string>): Option<Error> {
    if operationId.Some? && FindEventByOperationId(s.auditEvents, operationId.value).Some? then Some(ConflictError)
    else if runId.Some? && runId.value !in s.runs then Some(IntegrityError)
    else None
  }

  // ---------------------------------------------------------------- transactions

  /** One committed transaction of the gateway. */
  datatype Write =
    | InsertRun(run: Run)
    | UpdateRunStatus(
        runId: string, status: RunStatus, outputPayload: Option<JsonObject>, errorMessage: Option<string>, at: string)
    | InsertCheckpoint(checkpoint: Checkpoint)
    | MarkWaiting(approval: Approval, at: string)
    | UpdateApproval(approvalId: string, decider: string, decision: ApprovalStatus, reason: string, at: string)
    | InsertEvent(event: AuditEvent)

  /** An output payload is replaced only by a given one, the error message always. */
  function Updated(
    run: Run, status: RunStatus, outputPayload: Option<JsonObject>, errorMessage: Option<string>, at: string): Run {
    var output := match outputPayload case Some(o) => o case None => run.outputPayload;
    run.(status := status, outputPayload := output, errorMessage := errorMessage, updatedAt := at)
  }

  function Decided(a: Approval, decider: string, decision: ApprovalStatus, reason: string, at: string): Approval {
    a.(approvedBy := Some(decider), status := decision, reason := reason, decidedAt := Some(at))
  }

  /** `UPDATE approvals SET ... WHERE id = ?`. */
  function DecideRows(
    rows: seq<Approval>, approvalId: string, decider: string, decision: ApprovalStatus, reason: string, at: string)
    : (r: seq<Approval>)
    ensures |r| == |rows|
    ensures forall i | 0 <= i < |rows| ::
              rows[i].id == approvalId ==> r[i] == Decided(rows[i], decider, decision, reason, at)
    ensures forall i | 0 <= i < |rows| :: rows[i].id != approvalId ==> r[i] == rows[i]
  {
    seq(|rows|, i requires 0 <= i < |rows| =>
      if rows[i].id == approvalId then Decided(rows[i], decider, decision, reason, at) else rows[i])
  }

  function Apply(s: Store, w: Write): Store {
    match w
    case InsertRun(run) => s.(runs := s.runs[run.id := run])
    case UpdateRunStatus(runId, status, output, errorMessage, at) =>
      if runId !in s.runs then s
      else s.(runs := s.runs[runId := Updated(s.runs[runId], status, output, errorMessage, at)])
    case InsertCheckpoint(c) => s.(checkpoints := s.checkpoints + [c])
    case MarkWaiting(a, at) =>
      var runs :=
        if a.runId !in s.runs then s.runs
        else s.runs[a.runId := s.runs[a.runId].(status := WaitingApproval, updatedAt := at)];
      s.(runs := runs, approvals := s.approvals + [a])
    case UpdateApproval(id, decider, decision, reason, at) =>
      s.(approvals := DecideRows(s.approvals, id, decider, decision, reason, at))
    case InsertEvent(e) => s.(auditEvents := s.auditEvents + [e])
  }

  function ApplyAll(s: Store, ws: seq<Write>): Store {
    if ws == [] then s else Apply(ApplyAll(s, ws[..|ws| - 1]), ws[|ws| - 1])
  }

  lemma ApplyAllSnoc(s: Store, ws: seq<Write>, w: Write)
    ensures ApplyAll(s, ws + [w]) == Apply(ApplyAll(s, ws), w)
  {
    assert (ws + [w])[..|ws|] == ws;
  }

  lemma {:induction false} ApplyAllAppend(s: Store, ws: seq<Write>, vs: seq<Write>)
    ensures ApplyAll(s, ws + vs) == ApplyAll(ApplyAll(s, ws), vs)
  {
    if vs == [] {
      assert ws + vs == ws;
    } else {
      var front, last := vs[..|vs| - 1], vs[|vs| - 1];
      ApplyAllAppend(s, ws, front);
      assert ws + vs == (ws + front) + [last];
      ApplyAllSnoc(s, ws + front, last);
    }
  }

  // ---------------------------------------------------------------- keys between tables

  /** Rows are stored under their own id, and every `run_id` names a stored run. */
  predicate Referential(s: Store) {
    && (forall id <- s.runs :: s.runs[id].id == id)
    && (forall i | 0 <= i < |s.checkpoints| :: s.checkpoints[i].runId in s.runs)
    && (forall i | 0 <= i < |s.approvals| :: s.approvals[i].runId in s.runs)
    && (forall i | 0 <= i < |s.auditEvents| :: s.auditEvents[i].runId.Some? ==> s.auditEvents[i].runId.value in s.runs)
  }

  /** The foreign keys SQLite checks when it commits `w`. */
  predicate KeysHold(s: Store, w: Write) {
    match w
    case InsertCheckpoint(c) => c.runId in s.runs
    case MarkWaiting(a, _) => a.runId in s.runs
    case InsertEvent(e) => e.runId.Some? ==> e.runId.value in s.runs
    case _ => true
  }

  lemma ApplyKeepsReferential(s: Store, w: Write)
    requires Referential(s) && KeysHold(s, w)
    ensures Referential(Apply(s, w))
  {
  }
}
