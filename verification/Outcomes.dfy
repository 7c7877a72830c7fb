/**
 What a whole call does to its run in any reachable state: when it succeeds, which error it raises
 otherwise, and every row it leaves behind, field by field.
 */
module Outcomes {
  import opened Text
  import opened Queries
  import opened Records
  import opened Store
  import opened Lifecycle
  import opened Histories
  import opened RunViews
  import opened Gating
  import opened Reachability

  /** The call finds the run in `v` and leaves it in `after`, having committed all it planned. */
  ghost predicate Takes(history: seq<Attempt>, a: Attempt, r: string, v: RunView, after: RunView) {
    && Admissible(EMPTY, history + [a]) && a.committed >= 3
    && v == ViewOf(After(EMPTY, history), r) && after == ViewOf(After(EMPTY, history + [a]), r)
  }

  lemma BeforeLast(history: seq<Attempt>, a: Attempt)
    requires Admissible(EMPTY, history + [a])
    ensures var s := After(EMPTY, history);
            && Admissible(EMPTY, history) && WellFormed(a.call) && AdmitsAll(s, Committed(s, a))
            && After(EMPTY, history + [a]) == Exec(s, a) && Sound(s)
  {
    assert (history + [a])[..|history|] == history;
    ReachableIsSound(history);
    hide Sound, AdmitsAll, Exec, Committed, WellFormed;
  }

  lemma StoredUnderItsId(s: Store, r: string)
    requires Sound(s)
    ensures ViewOf(s, r).run.Some? ==> ViewOf(s, r).run.value.id == r
  {
  }

  /** A call that works on run `r` is decided and executed on what the view of `r` shows. */
  lemma ActsOnView(history: seq<Attempt>, a: Attempt, r: string, v: RunView, after: RunView)
    requires Takes(history, a, r, v, after) && Target(After(EMPTY, history), a.call) == Some(r)
    ensures Plan(After(EMPTY, history), a.call) == PlanView(v, a.call)
    ensures after == ApplyViewAll(v, r, Prefix(WritesView(v, a.call), a.committed))
    ensures v.run.Some? ==> v.run.value.id == r
  {
    hide Admissible, After, ViewOf, PlanView, WritesView, Plan, Sound, AdmitsAll;
    BeforeLast(history, a);
    StoredUnderItsId(After(EMPTY, history), r);
    CallActsOnOneRun(After(EMPTY, history), a, r);
    hide Target;
  }

  lemma WholePrefix(ws: seq<Write>, n: nat)
    requires |ws| <= n
    ensures Prefix(ws, n) == ws && ws[..|ws|] == ws
  {
  }

  // ---------------------------------------------------------------- transitions

  /** One status change, one checkpoint and one event in the name of the run's tenant and the actor. */
  predicate Moved(v: RunView, after: RunView, c: Call, status: RunStatus, state: CheckpointState, body: EventBody)
    requires IsTransition(c.op)
  {
    && v.run.Some?
    && after.run == Some(v.run.value.(status := status, errorMessage := None, updatedAt := c.d0.at))
    && after.checkpoints == v.checkpoints + [Checkpoint(c.d1.id, v.run.value.id, state, c.d1.at)]
    && after.approvals == v.approvals
    && after.auditEvents == v.auditEvents + [
         AuditEvent(c.d2.id, v.run.value.tenantId, Some(v.run.value.id), Some(c.op.actor), body, None, c.d2.at)]
  }

  lemma TransitionMoves(
    v: RunView, r: string, c: Call, status: RunStatus, state: CheckpointState, body: EventBody)
    requires v.run.Some? && v.run.value.id == r && IsTransition(c.op) && c.op.runId == r
    ensures Moved(v, ApplyViewAll(v, r, Transition(v.run.value, c, status, state, body).value), c, status, state, body)
  {
    var ws := Transition(v.run.value, c, status, state, body).value;
    Stages(v, r, ws, 3);
    assert ws[..3] == ws;
  }

  lemma TransitionRuns(history: seq<Attempt>, a: Attempt, v: RunView, after: RunView)
    requires IsTransition(a.call.op) && Takes(history, a, a.call.op.runId, v, after)
    ensures Plan(After(EMPTY, history), a.call) == PlanView(v, a.call)
    ensures v.run.Some? ==> v.run.value.id == a.call.op.runId
    ensures PlanView(v, a.call).Failure? ==> after == v
    ensures PlanView(v, a.call).Success? ==> after == ApplyViewAll(v, a.call.op.runId, PlanView(v, a.call).value)
  {
    ActsOnView(history, a, a.call.op.runId, v, after);
    if PlanView(v, a.call).Success? {
      WholePrefix(PlanView(v, a.call).value, a.committed);
    }
    hide Takes, After, Plan;
  }

  /** Cancel: any run that has not ended, waiting for approval or not. */
  lemma CancelOutcome(history: seq<Attempt>, a: Attempt, v: RunView, after: RunView)
    requires a.call.op.Cancel? && Takes(history, a, a.call.op.runId, v, after)
    ensures var c, outcome := a.call, Plan(After(EMPTY, history), a.call);
            if v.run.None? then outcome == Failure(NotFoundError) && after == v
            else if v.run.value.status in {Canceled, Completed, Failed} then
              outcome == Failure(ConflictError) && after == v
            else
              outcome.Success? && Moved(v, after, c, Canceled, CanceledState(c.op.reason), RunCanceled(c.op.reason))
  {
    hide Takes, After, Plan, Moved;
    TransitionRuns(history, a, v, after);
    var c := a.call;
    if v.run.Some? {
      TransitionMoves(v, c.op.runId, c, Canceled, CanceledState(c.op.reason), RunCanceled(c.op.reason));
    }
  }

  /** Interrupt: the same runs. */
  lemma InterruptOutcome(history: seq<Attempt>, a: Attempt, v: RunView, after: RunView)
    requires a.call.op.Interrupt? && Takes(history, a, a.call.op.runId, v, after)
    ensures var c, outcome := a.call, Plan(After(EMPTY, history), a.call);
            if v.run.None? then outcome == Failure(NotFoundError) && after == v
            else if v.run.value.status in {Canceled, Completed, Failed} then
              outcome == Failure(ConflictError) && after == v
            else
              && outcome.Success?
              && Moved(v, after, c, Interrupted, InterruptedState(c.op.reason), RunInterrupted(c.op.reason))
  {
    hide Takes, After, Plan, Moved;
    TransitionRuns(history, a, v, after);
    var c := a.call;
    if v.run.Some? {
      TransitionMoves(v, c.op.runId, c, Interrupted, InterruptedState(c.op.reason), RunInterrupted(c.op.reason));
    }
  }

  /** Retry: failed runs too. */
  lemma RetryOutcome(history: seq<Attempt>, a: Attempt, v: RunView, after: RunView)
    requires a.call.op.Retry? && Takes(history, a, a.call.op.runId, v, after)
    ensures var c, outcome := a.call, Plan(After(EMPTY, history), a.call);
            if v.run.None? then outcome == Failure(NotFoundError) && after == v
            else if v.run.value.status in {Canceled, Completed} then outcome == Failure(ConflictError) && after == v
            else outcome.Success? && Moved(v, after, c, Pending, RetriedState(c.op.reason), RunRetried(c.op.reason))
  {
    hide Takes, After, Plan, Moved;
    TransitionRuns(history, a, v, after);
    var c := a.call;
    if v.run.Some? {
      TransitionMoves(v, c.op.runId, c, Pending, RetriedState(c.op.reason), RunRetried(c.op.reason));
    }
  }

  /** Resume: a run that has not ended, whose latest request, if it has one, was approved. */
  lemma ResumeOutcome(history: seq<Attempt>, a: Attempt, v: RunView, after: RunView)
    requires a.call.op.Resume? && Takes(history, a, a.call.op.runId, v, after)
    ensures var c, outcome := a.call, Plan(After(EMPTY, history), a.call);
            if v.run.None? then outcome == Failure(NotFoundError) && after == v
            else if v.run.value.status in {Canceled, Completed, Failed} then
              outcome == Failure(ConflictError) && after == v
            else if v.approvals != [] && v.approvals[|v.approvals| - 1].status == Undecided then
              outcome == Failure(PolicyDeniedError(Undecided)) && after == v
            else if v.approvals != [] && v.approvals[|v.approvals| - 1].status == Denied then
              outcome == Failure(PolicyDeniedError(Denied)) && after == v
            else
              var was := v.run.value.status;
              && outcome.Success?
              && Moved(v, after, c, Running, ResumedState(was, c.op.reason, ["resumed"]), RunResumed(c.op.reason, was))
  {
    hide Takes, After, Plan, Moved;
    TransitionRuns(history, a, v, after);
    var c := a.call;
    if v.run.Some? {
      var was := v.run.value.status;
      TransitionMoves(v, c.op.runId, c, Running, ResumeState(was, c.op.reason), RunResumed(c.op.reason, was));
    }
  }

  // ---------------------------------------------------------------- create

  /** A created run is pending, with the engine's first checkpoint and one event in its owner's name. */
  lemma CreateOutcome(history: seq<Attempt>, a: Attempt, v: RunView, after: RunView)
    requires a.call.op.Create? && Takes(history, a, a.call.d0.id, v, after)
    ensures var c, op := a.call, a.call.op;
            && Plan(After(EMPTY, history), c).Success? && v == RunView(None, [], [], [])
            && after == RunView(
                 Some(Run(c.d0.id, op.tenantId, op.userId, Pending, op.objective, op.inputPayload, map[], None,
                          c.d0.at, c.d0.at)),
                 [Checkpoint(c.d1.id, c.d0.id,
                             CreatedState("fallback-local", op.objective, op.inputPayload, ["created"]), c.d1.at)],
                 [],
                 [AuditEvent(c.d2.id, op.tenantId, Some(c.d0.id), Some(op.userId),
                             RunCreated(op.objective, op.inputPayload), None, c.d2.at)])
  {
    var c, r, s := a.call, a.call.d0.id, After(EMPTY, history);
    ActsOnView(history, a, r, v, after);
    BeforeLast(history, a);
    ReachableIsGated(history, r);
    assert Committed(s, a) == PlanCreate(c).value;
    CommittedIsFresh(s, a, r);
    WholePrefix(PlanCreate(c).value, a.committed);
    hide Takes, After, Admissible, Sound, ViewOf, Committed, AdmitsAll;
    CreatedRows(c);
  }

  lemma CreatedRows(c: Call)
    requires c.op.Create?
    ensures var op := c.op;
            ApplyViewAll(NO_RUN, c.d0.id, PlanCreate(c).value) == RunView(
              Some(Run(c.d0.id, op.tenantId, op.userId, Pending, op.objective, op.inputPayload, map[], None,
                       c.d0.at, c.d0.at)),
              [Checkpoint(c.d1.id, c.d0.id,
                          CreatedState("fallback-local", op.objective, op.inputPayload, ["created"]), c.d1.at)],
              [],
              [AuditEvent(c.d2.id, op.tenantId, Some(c.d0.id), Some(op.userId),
                          RunCreated(op.objective, op.inputPayload), None, c.d2.at)])
  {
    var ws := PlanCreate(c).value;
    Stages(NO_RUN, c.d0.id, ws, 3);
    assert ws[..3] == ws;
  }

  // ---------------------------------------------------------------- approvals

  /** A request: the run waits, with one more undecided approval and two events. */
  predicate Requests(v: RunView, after: RunView, c: Call)
    requires c.op.RequestApproval?
  {
    var op := c.op;
    && v.run.Some?
    && after.run == Some(v.run.value.(status := WaitingApproval, updatedAt := c.d0.at))
    && after.checkpoints == v.checkpoints
    && after.approvals == v.approvals + [
         Approval(c.d0.id, v.run.value.id, op.actor, None, Undecided, op.reason, c.d0.at, None)]
    && after.auditEvents == v.auditEvents + [
         AuditEvent(c.d1.id, op.tenantId, Some(v.run.value.id), Some(op.actor),
                    RunWaitingApproval(op.reason), None, c.d1.at),
         AuditEvent(c.d2.id, op.tenantId, Some(v.run.value.id), Some(op.actor),
                    ApprovalRequested(c.d0.id, op.reason), None, c.d2.at)]
  }

  lemma RequestRows(v: RunView, c: Call)
    requires v.run.Some? && c.op.RequestApproval? && c.op.runId == v.run.value.id
    requires PlanRequest(v.run.value, v.approvals, c).Success?
    ensures Requests(v, ApplyViewAll(v, c.op.runId, PlanRequest(v.run.value, v.approvals, c).value), c)
  {
    var ws := PlanRequest(v.run.value, v.approvals, c).value;
    Stages(v, c.op.runId, ws, 3);
    assert ws[..3] == ws;
  }

  /** Request: a run that has not ended and whose latest request, if it has one, is decided. */
  lemma RequestOutcome(history: seq<Attempt>, a: Attempt, v: RunView, after: RunView)
    requires a.call.op.RequestApproval? && Takes(history, a, a.call.op.runId, v, after)
    ensures var c, outcome := a.call, Plan(After(EMPTY, history), a.call);
            if v.run.None? then outcome == Failure(NotFoundError) && after == v
            else if v.run.value.status in {Completed, Canceled, Failed} then
              outcome == Failure(ConflictError) && after == v
            else if v.approvals != [] && v.approvals[|v.approvals| - 1].status == Undecided then
              outcome == Failure(ConflictError) && after == v
            else outcome.Success? && Requests(v, after, c)
  {
    var c := a.call;
    ActsOnView(history, a, c.op.runId, v, after);
    hide Takes, After, Plan, Requests;
    if PlanView(v, c).Success? {
      WholePrefix(PlanView(v, c).value, a.committed);
      RequestRows(v, c);
    }
  }

  /** A decision fills in the one approval it names, and leaves the run as it is. */
  predicate Decides(v: RunView, after: RunView, c: Call, i: nat)
    requires c.op.DecideApproval? && i < |v.approvals|
  {
    var op, row := c.op, v.approvals[i];
    var decision := if op.approve then Approved else Denied;
    && after.run == v.run && after.checkpoints == v.checkpoints
    && after.approvals == v.approvals[i := Approval(row.id, row.runId, row.requestedBy, Some(op.approver), decision,
                                                    op.reason, row.createdAt, Some(c.d0.at))]
    && after.auditEvents == v.auditEvents + [
         AuditEvent(c.d1.id, op.tenantId, Some(row.runId), Some(op.approver),
                    ApprovalDecided(row.id, decision, op.reason), None, c.d1.at)]
  }

  lemma DecisionRows(v: RunView, r: string, c: Call, i: nat)
    requires DistinctIds(v.approvals) && i < |v.approvals| && v.approvals[i].runId == r
    requires c.op.DecideApproval? && v.approvals[i].id == c.op.approvalId && v.approvals[i].status == Undecided
    ensures FindApproval(v.approvals, c.op.approvalId) == Some(v.approvals[i])
    ensures PlanView(v, c).Success? && Decides(v, ApplyViewAll(v, r, PlanView(v, c).value), c, i)
  {
    FoundRow(v.approvals, i);
    hide FindApproval;
    var ws := PlanView(v, c).value;
    Stages(v, r, ws, 2);
    assert ws[..2] == ws;
  }

  lemma FoundRow(rows: seq<Approval>, i: nat)
    requires DistinctIds(rows) && i < |rows|
    ensures FindApproval(rows, rows[i].id) == Some(rows[i])
  {
    FindApprovalHasId(rows, rows[i].id);
    assert rows[i] in rows;
  }

  lemma DecisionTarget(history: seq<Attempt>, r: string, i: nat, c: Call)
    requires Admissible(EMPTY, history) && c.op.DecideApproval?
    requires var rows := ViewOf(After(EMPTY, history), r).approvals; i < |rows| && rows[i].id == c.op.approvalId
    ensures var s := After(EMPTY, history);
            && Target(s, c) == Some(r) && DistinctIds(ViewOf(s, r).approvals)
            && ViewOf(s, r).approvals[i].runId == r
  {
    hide After, Admissible;
    var s := After(EMPTY, history);
    ReachableIsSound(history);
    ViewIsAppendOrder(s, r);
    ReachableIsGated(history, r);
    var row := ViewOf(s, r).approvals[i];
    WhereMember(s.approvals, ApprovalOf(r), row);
    FindApprovalHasId(s.approvals, row.id);
    SameRow(s.approvals, row, FindApproval(s.approvals, row.id).value);
    hide Where, FindApproval, InOrder, Referential;
  }

  /** Decide: an undecided approval, whatever the state of its run. */
  lemma DecideOutcome(history: seq<Attempt>, a: Attempt, r: string, v: RunView, after: RunView, i: nat)
    requires a.call.op.DecideApproval? && Takes(history, a, r, v, after)
    requires i < |v.approvals| && v.approvals[i].id == a.call.op.approvalId
    ensures var outcome := Plan(After(EMPTY, history), a.call);
            if v.approvals[i].status != Undecided then outcome == Failure(ConflictError) && after == v
            else outcome.Success? && Decides(v, after, a.call, i)
  {
    BeforeLast(history, a);
    DecisionTarget(history, r, i, a.call);
    ActsOnView(history, a, r, v, after);
    hide Takes, After, Plan, Admissible, Decides, DistinctIds, FindApproval;
    FoundRow(v.approvals, i);
    if v.approvals[i].status == Undecided {
      DecisionRows(v, r, a.call, i);
      WholePrefix(PlanView(v, a.call).value, a.committed);
    }
  }

  /** Deciding what was never requested raises NotFoundError and changes no run. */
  lemma DecideNothing(history: seq<Attempt>, a: Attempt)
    requires a.call.op.DecideApproval? && Admissible(EMPTY, history + [a])
    requires forall x <- After(EMPTY, history).approvals :: x.id != a.call.op.approvalId
    ensures Plan(After(EMPTY, history), a.call) == Failure(NotFoundError)
    ensures After(EMPTY, history + [a]) == After(EMPTY, history)
  {
    BeforeLast(history, a);
    FindApprovalHasId(After(EMPTY, history).approvals, a.call.op.approvalId);
    hide After, Admissible;
  }

  // ---------------------------------------------------------------- events of other services

  /** Record: refused for a taken operation id first, then for a missing run. */
  lemma RecordOutcome(history: seq<Attempt>, a: Attempt)
    requires a.call.op.Record? && Admissible(EMPTY, history + [a]) && a.committed >= 1
    ensures var s, after := After(EMPTY, history), After(EMPTY, history + [a]);
            var op, d := a.call.op, a.call.d0;
            if op.operationId.Some? && exists e <- s.auditEvents :: e.operationId == op.operationId then
              Plan(s, a.call) == Failure(ConflictError) && after == s
            else if op.about.Some? && op.about.value !in s.runs then
              Plan(s, a.call) == Failure(IntegrityError) && after == s
            else
              && Plan(s, a.call).Success?
              && after == Store(s.runs, s.checkpoints, s.approvals, s.auditEvents + [
                   AuditEvent(d.id, op.tenantId, op.about, op.recorder, op.body, op.operationId, d.at)])
  {
    hide After, Admissible, Sound, AdmitsAll, ApplyAll;
    BeforeLast(history, a);
    var s := After(EMPTY, history);
    if Plan(s, a.call).Success? {
      var ws := Plan(s, a.call).value;
      WholePrefix(ws, a.committed);
      OneWrite(s, ws[0]);
      assert ws == [ws[0]];
    } else {
      NoWrite(s);
    }
  }

  lemma OneWrite(s: Store, w: Write)
    ensures ApplyAll(s, [w]) == Apply(s, w)
  {
    assert [w][..0] == [];
  }

  lemma NoWrite(s: Store)
    ensures ApplyAll(s, []) == s
  {
  }

  // ---------------------------------------------------------------- what a view shows

  /** The view of a run: its row, and just the rows that name it. */
  lemma ViewShowsItsRun(history: seq<Attempt>, r: string)
    requires Admissible(EMPTY, history)
    ensures var s := After(EMPTY, history);
            var v := ViewOf(s, r);
            && v.run == (if r in s.runs then Some(s.runs[r]) else None)
            && (forall c :: c in v.checkpoints <==> c in s.checkpoints && c.runId == r)
            && (forall a :: a in v.approvals <==> a in s.approvals && a.runId == r)
            && (forall e :: e in v.auditEvents <==> e in s.auditEvents && e.runId == Some(r))
  {
    ReachableIsSound(history);
    hide After, Admissible;
    var s := After(EMPTY, history);
    ViewIsAppendOrder(s, r);
    forall c ensures c in RowsOf(s, r).checkpoints <==> c in s.checkpoints && c.runId == r {
      WhereMember(s.checkpoints, CheckpointOf(r), c);
    }
    forall a ensures a in RowsOf(s, r).approvals <==> a in s.approvals && a.runId == r {
      WhereMember(s.approvals, ApprovalOf(r), a);
    }
    forall e ensures e in RowsOf(s, r).auditEvents <==> e in s.auditEvents && e.runId == Some(r) {
      WhereMember(s.auditEvents, EventOf(r), e);
    }
    hide Sound, ViewOf, Where;
  }
}
