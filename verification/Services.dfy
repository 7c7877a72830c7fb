/** `OrchestrationService` and `PolicyService`: guards and gateway calls, in source order. */
module Services {
  import opened Text
  import opened Records
  import opened Store
  import opened SqliteGateway
  import opened Lifecycle
  import opened Histories

  function ErrorOf<T>(r: Result<T>): Option<Error> {
    match r
    case Success(_) => None
    case Failure(e) => Some(e)
  }

  /**
   The service did what `Exec` says of a call that is stopped after `remaining` transactions: it
   committed the planned ones in order as far as they went, and raised the planned error or,
   where a transaction failed, that failure.
   */
  ghost predicate Follows(
    before: Store, log: seq<Write>, remaining: nat, c: Call, gateway: Gateway, error: Option<Error>)
    reads gateway
  {
    var a := Attempt(c, remaining);
    && gateway.Valid()
    && gateway.Kept(Exec(before, a), log + Committed(before, a), remaining - |Committed(before, a)|)
    && error == if Complete(before, a) then ErrorOf(Plan(before, c)) else Some(StorageError)
  }

  /** Where a plan of at most three transactions can stop, and what the log then holds. */
  lemma StoppedPlan(s: Store, log: seq<Write>, a: Attempt)
    requires s == ApplyAll(EMPTY, log) && |Writes(s, a.call)| <= 3
    ensures Exec(s, a) == ApplyAll(EMPTY, log + Committed(s, a))
    ensures var ws := Writes(s, a.call);
            && (a.committed == 0 || ws == [] ==> Committed(s, a) == [] && log + Committed(s, a) == log)
            && (a.committed == 1 < |ws| ==> Committed(s, a) == [ws[0]])
            && (a.committed == 2 < |ws| ==> Committed(s, a) == [ws[0], ws[1]]
                                            && log + Committed(s, a) == log + [ws[0]] + [ws[1]])
            && (|ws| == 2 <= a.committed ==> Committed(s, a) == ws && log + ws == log + [ws[0]] + [ws[1]])
            && (|ws| == 3 <= a.committed ==> Committed(s, a) == ws && log + ws == log + [ws[0]] + [ws[1]] + [ws[2]])
  {
    StoppedCallIsLogPrefix(s, log, a);
    hide Writes, Exec, ApplyAll;
  }

  class PolicyService {
    const gateway: Gateway

    constructor (gateway: Gateway)
      ensures this.gateway == gateway
    {
      this.gateway := gateway;
    }

    method AssertResumeAllowed(runId: string) returns (denial: Option<Error>)
      ensures denial == ResumeDenial(ListApprovalsForRun(gateway.Tables(), runId))
    {
      var approvals := gateway.ListApprovals(runId);
      if approvals == [] {
        return None;
      }
      var latest := approvals[|approvals| - 1];
      if latest.status == Approved {
        return None;
      }
      if latest.status == Undecided {
        return Some(PolicyDeniedError(Undecided));
      }
      return Some(PolicyDeniedError(Denied));
    }

    method Decide(
      d0: Draw, d1: Draw, approvalId: string, tenantId: string, approver: string, approve: bool, reason: string)
      returns (r: Result<Approval>)
      requires gateway.Valid()
      modifies gateway
      ensures Follows(old(gateway.Tables()), old(gateway.log), old(gateway.remaining),
                      Call(DecideApproval(approvalId, tenantId, approver, approve, reason), d0, d1, d1),
                      gateway, ErrorOf(r))
      ensures r.Success? ==>
        && FindApproval(old(gateway.approvals), approvalId).Some?
        && r.value == Decided(FindApproval(old(gateway.approvals), approvalId).value, approver,
                              if approve then Approved else Denied, reason, d0.at)
    {
      hide Referential, ListApprovalsForRun, Exec, ApplyAll, Prefix;
      ghost var c := Call(DecideApproval(approvalId, tenantId, approver, approve, reason), d0, d1, d1);
      StoppedPlan(gateway.Tables(), gateway.log, Attempt(c, gateway.remaining));
      var status := if approve then Approved else Denied;
      r := gateway.DecideApproval(d0.at, approvalId, approver, status, reason);
      if r.Failure? {
        return;
      }
      var approval := r.value;
      var event := gateway.AppendEvent(
        d1, tenantId, Some(approval.runId), Some(approver),
        ApprovalDecided(approval.id, approval.status, reason), None);
      if event.Failure? {
        return Failure(event.error);
      }
    }
  }

  class OrchestrationService {
    const gateway: Gateway
    const policy: PolicyService

    ghost predicate Valid()
      reads gateway
    {
      policy.gateway == gateway && gateway.Valid()
    }

    constructor (policy: PolicyService)
      requires policy.gateway.Valid()
      ensures Valid() && gateway == policy.gateway
    {
      this.policy := policy;
      this.gateway := policy.gateway;
    }

    method CreateRun(
      d0: Draw, d1: Draw, d2: Draw, tenantId: string, userId: string, objective: string, inputPayload: JsonObject)
      returns (r: Result<Run>)
      requires Valid()
      modifies gateway
      ensures Valid()
      ensures Follows(old(gateway.Tables()), old(gateway.log), old(gateway.remaining),
                      Call(Create(tenantId, userId, objective, inputPayload), d0, d1, d2), gateway, ErrorOf(r))
      ensures r.Success? ==> r.value.id == d0.id && FindRun(gateway.Tables(), d0.id) == Some(r.value)
    {
      hide Referential, ListApprovalsForRun, Exec, ApplyAll, Prefix;
      ghost var c := Call(Create(tenantId, userId, objective, inputPayload), d0, d1, d2);
      StoppedPlan(gateway.Tables(), gateway.log, Attempt(c, gateway.remaining));
      r := gateway.CreateRun(d0, tenantId, userId, objective, inputPayload);
      if r.Failure? {
        return;
      }
      var run := r.value;
      var initialState := InitialState(objective, inputPayload);
      var checkpoint := gateway.AppendCheckpoint(d1, run.id, initialState);
      if checkpoint.Failure? {
        return Failure(checkpoint.error);
      }
      var event := gateway.AppendEvent(
        d2, tenantId, Some(run.id), Some(userId), RunCreated(objective, inputPayload), None);
      if event.Failure? {
        return Failure(event.error);
      }
    }

    method ResumeRun(d0: Draw, d1: Draw, d2: Draw, runId: string, actor: string, reason: string)
      returns (r: Result<Run>)
      requires Valid()
      modifies gateway
      ensures Valid()
      ensures Follows(old(gateway.Tables()), old(gateway.log), old(gateway.remaining),
                      Call(Resume(runId, actor, reason), d0, d1, d2), gateway, ErrorOf(r))
      ensures r.Success? ==> FindRun(gateway.Tables(), runId) == Some(r.value)
    {
      hide Referential, ListApprovalsForRun, Exec, ApplyAll, Prefix;
      ghost var c := Call(Resume(runId, actor, reason), d0, d1, d2);
      StoppedPlan(gateway.Tables(), gateway.log, Attempt(c, gateway.remaining));
      var found := gateway.GetRun(runId);
      if found.None? {
        return Failure(NotFoundError);
      }
      var run := found.value;
      if run.status in {Canceled, Completed, Failed} {
        return Failure(ConflictError);
      }
      var denial := policy.AssertResumeAllowed(runId);
      if denial.Some? {
        return Failure(denial.value);
      }
      r := gateway.UpdateStatus(d0.at, runId, Running, None, None);
      if r.Failure? {
        return;
      }
      var resumeState := ResumeState(run.status, reason);
      var checkpoint := gateway.AppendCheckpoint(d1, runId, resumeState);
      if checkpoint.Failure? {
        return Failure(checkpoint.error);
      }
      var event := gateway.AppendEvent(
        d2, run.tenantId, Some(run.id), Some(actor), RunResumed(reason, run.status), None);
      if event.Failure? {
        return Failure(event.error);
      }
    }

    method InterruptRun(d0: Draw, d1: Draw, d2: Draw, runId: string, actor: string, reason: string)
      returns (r: Result<Run>)
      requires Valid()
      modifies gateway
      ensures Valid()
      ensures Follows(old(gateway.Tables()), old(gateway.log), old(gateway.remaining),
                      Call(Interrupt(runId, actor, reason), d0, d1, d2), gateway, ErrorOf(r))
      ensures r.Success? ==> FindRun(gateway.Tables(), runId) == Some(r.value)
    {
      hide Referential, ListApprovalsForRun, Exec, ApplyAll, Prefix;
      ghost var c := Call(Interrupt(runId, actor, reason), d0, d1, d2);
      StoppedPlan(gateway.Tables(), gateway.log, Attempt(c, gateway.remaining));
      var found := gateway.GetRun(runId);
      if found.None? {
        return Failure(NotFoundError);
      }
      var run := found.value;
      if run.status in {Canceled, Completed, Failed} {
        return Failure(ConflictError);
      }
      r := gateway.UpdateStatus(d0.at, runId, Interrupted, None, None);
      if r.Failure? {
        return;
      }
      var checkpoint := gateway.AppendCheckpoint(d1, runId, InterruptedState(reason));
      if checkpoint.Failure? {
        return Failure(checkpoint.error);
      }
      var event := gateway.AppendEvent(d2, run.tenantId, Some(run.id), Some(actor), RunInterrupted(reason), None);
      if event.Failure? {
        return Failure(event.error);
      }
    }

    method RetryRun(d0: Draw, d1: Draw, d2: Draw, runId: string, actor: string, reason: string)
      returns (r: Result<Run>)
      requires Valid()
      modifies gateway
      ensures Valid()
      ensures Follows(old(gateway.Tables()), old(gateway.log), old(gateway.remaining),
                      Call(Retry(runId, actor, reason), d0, d1, d2), gateway, ErrorOf(r))
      ensures r.Success? ==> FindRun(gateway.Tables(), runId) == Some(r.value)
    {
      hide Referential, ListApprovalsForRun, Exec, ApplyAll, Prefix;
      ghost var c := Call(Retry(runId, actor, reason), d0, d1, d2);
      StoppedPlan(gateway.Tables(), gateway.log, Attempt(c, gateway.remaining));
      var found := gateway.GetRun(runId);
      if found.None? {
        return Failure(NotFoundError);
      }
      var run := found.value;
      if run.status in {Canceled, Completed} {
        return Failure(ConflictError);
      }
      r := gateway.UpdateStatus(d0.at, runId, Pending, None, None);
      if r.Failure? {
        return;
      }
      var checkpoint := gateway.AppendCheckpoint(d1, runId, RetriedState(reason));
      if checkpoint.Failure? {
        return Failure(checkpoint.error);
      }
      var event := gateway.AppendEvent(d2, run.tenantId, Some(run.id), Some(actor), RunRetried(reason), None);
      if event.Failure? {
        return Failure(event.error);
      }
    }

    method CancelRun(d0: Draw, d1: Draw, d2: Draw, runId: string, actor: string, reason: string)
      returns (r: Result<Run>)
      requires Valid()
      modifies gateway
      ensures Valid()
      ensures Follows(old(gateway.Tables()), old(gateway.log), old(gateway.remaining),
                      Call(Cancel(runId, actor, reason), d0, d1, d2), gateway, ErrorOf(r))
      ensures r.Success? ==> FindRun(gateway.Tables(), runId) == Some(r.value)
    {
      hide Referential, ListApprovalsForRun, Exec, ApplyAll, Prefix;
      ghost var c := Call(Cancel(runId, actor, reason), d0, d1, d2);
      StoppedPlan(gateway.Tables(), gateway.log, Attempt(c, gateway.remaining));
      var found := gateway.GetRun(runId);
      if found.None? {
        return Failure(NotFoundError);
      }
      var run := found.value;
      if run.status in {Canceled, Completed, Failed} {
        return Failure(ConflictError);
      }
      r := gateway.UpdateStatus(d0.at, runId, Canceled, None, None);
      if r.Failure? {
        return;
      }
      var checkpoint := gateway.AppendCheckpoint(d1, runId, CanceledState(reason));
      if checkpoint.Failure? {
        return Failure(checkpoint.error);
      }
      var event := gateway.AppendEvent(d2, run.tenantId, Some(run.id), Some(actor), RunCanceled(reason), None);
      if event.Failure? {
        return Failure(event.error);
      }
    }

    method RequestApproval(
      d0: Draw, d1: Draw, d2: Draw, runId: string, actor: string, tenantId: string, reason: string)
      returns (r: Result<(Run, Approval)>)
      requires Valid()
      modifies gateway
      ensures Valid()
      ensures Follows(old(gateway.Tables()), old(gateway.log), old(gateway.remaining),
                      Call(Operation.RequestApproval(runId, actor, tenantId, reason), d0, d1, d2), gateway, ErrorOf(r))
      ensures r.Success? ==>
        && FindRun(gateway.Tables(), runId) == Some(r.value.0)
        && gateway.approvals == old(gateway.approvals) + [r.value.1]
    {
      hide Referential, ListApprovalsForRun, Exec, ApplyAll, Prefix;
      ghost var c := Call(Operation.RequestApproval(runId, actor, tenantId, reason), d0, d1, d2);
      StoppedPlan(gateway.Tables(), gateway.log, Attempt(c, gateway.remaining));
      var found := gateway.GetRun(runId);
      if found.None? {
        return Failure(NotFoundError);
      }
      if found.value.status in {Completed, Canceled, Failed} {
        return Failure(ConflictError);
      }
      var existing := gateway.ListApprovals(runId);
      if existing != [] && existing[|existing| - 1].status == Undecided {
        return Failure(ConflictError);
      }
      r := gateway.MarkRunWaitingAndCreateApproval(d0, runId, actor, reason);
      if r.Failure? {
        return;
      }
      var run, approval := r.value.0, r.value.1;
      var waiting := gateway.AppendEvent(
        d1, tenantId, Some(run.id), Some(actor), RunWaitingApproval(reason), None);
      if waiting.Failure? {
        return Failure(waiting.error);
      }
      var requested := gateway.AppendEvent(
        d2, tenantId, Some(run.id), Some(actor), ApprovalRequested(approval.id, reason), None);
      if requested.Failure? {
        return Failure(requested.error);
      }
    }

    method GetRunView(runId: string) returns (r: Result<RunView>)
      requires Valid()
      ensures r == if FindRun(gateway.Tables(), runId).None? then Failure(NotFoundError)
                   else Success(ViewOf(gateway.Tables(), runId))
    {
      var found := gateway.GetRun(runId);
      if found.None? {
        return Failure(NotFoundError);
      }
      var checkpoints := gateway.ListCheckpoints(runId);
      var approvals := gateway.ListApprovals(runId);
      var auditEvents := gateway.ListEvents(runId);
      r := Success(RunView(found, checkpoints, approvals, auditEvents));
    }
  }
}
