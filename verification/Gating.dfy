/**
 What holds of a run's rows in every reachable state, even when execution may stop after any
 single transaction: the approval gate, and an audit trail that never says too much.
 */
module Gating {
  import opened Text
  import opened Timestamps
  import opened Queries
  import opened Records
  import opened Store
  import opened Lifecycle
  import opened Histories
  import opened RunViews

  // ---------------------------------------------------------------- the approval gate

  /** Only the last approval can be undecided. */
  predicate OnlyLastUndecided(rows: seq<Approval>) {
    forall i | 0 <= i < |rows| - 1 :: rows[i].status != Undecided
  }

  predicate LastApproved(rows: seq<Approval>) {
    rows != [] && rows[|rows| - 1].status == Approved
  }

  predicate StatusFits(status: RunStatus, approvals: seq<Approval>) {
    && status != Completed && status != Failed
    && (status == Running ==> approvals == [] || LastApproved(approvals))
    && (status == WaitingApproval ==> approvals != [])
  }

  // ---------------------------------------------------------------- the trail against the rows

  /** The checkpoint a lifecycle event reports. */
  function Reported(body: EventBody): Option<CheckpointState> {
    match body
    case RunCreated(objective, inputPayload) => Some(InitialState(objective, inputPayload))
    case RunResumed(reason, fromStatus) => Some(ResumeState(fromStatus, reason))
    case RunInterrupted(reason) => Some(InterruptedState(reason))
    case RunRetried(reason) => Some(RetriedState(reason))
    case RunCanceled(reason) => Some(CanceledState(reason))
    case _ => None
  }

  function ReportedBy(e: AuditEvent): seq<CheckpointState> {
    match Reported(e.body)
    case Some(state) => [state]
    case None => []
  }

  /** The checkpoints a trail reports, in order: its events without approval and tool events. */
  function ReportedStates(trail: seq<AuditEvent>): seq<CheckpointState> {
    if trail == [] then []
    else
      var front, last := trail[..|trail| - 1], trail[|trail| - 1];
      ReportedStates(front) + ReportedBy(last)
  }

  lemma ReportedStatesAppend(trail: seq<AuditEvent>, e: AuditEvent)
    ensures ReportedStates(trail + [e]) == ReportedStates(trail) + ReportedBy(e)
  {
    assert (trail + [e])[..|trail|] == trail;
  }

  function States(checkpoints: seq<Checkpoint>): seq<CheckpointState> {
    seq(|checkpoints|, i requires 0 <= i < |checkpoints| => checkpoints[i].state)
  }

  /** `xs` is a subsequence of `ys`. */
  predicate Subsequence<T(==)>(xs: seq<T>, ys: seq<T>) {
    xs == [] || (ys != [] && (
      Subsequence(xs, ys[..|ys| - 1]) ||
      (xs[|xs| - 1] == ys[|ys| - 1] && Subsequence(xs[..|xs| - 1], ys[..|ys| - 1]))))
  }

  lemma SubsequenceAppend<T>(xs: seq<T>, ys: seq<T>, y: T)
    requires Subsequence(xs, ys)
    ensures Subsequence(xs, ys + [y]) && Subsequence(xs + [y], ys + [y])
  {
    assert (ys + [y])[..|ys|] == ys && (xs + [y])[..|xs|] == xs;
  }

  /** The stored approval that an approval event speaks about. */
  predicate Backs(a: Approval, e: AuditEvent) {
    match e.body
    case ApprovalRequested(id, reason) =>
      a.id == id && e.actorUserId == Some(a.requestedBy) && (a.status == Undecided ==> a.reason == reason)
    case ApprovalDecided(id, status, reason) =>
      a.id == id && a.status == status && status != Undecided && a.reason == reason && a.approvedBy == e.actorUserId
    case _ => true
  }

  predicate IsApprovalEvent(e: AuditEvent) {
    e.body.ApprovalRequested? || e.body.ApprovalDecided?
  }

  predicate Backed(e: AuditEvent, approvals: seq<Approval>) {
    IsApprovalEvent(e) ==> exists i :: 0 <= i < |approvals| && Backs(approvals[i], e)
  }

  predicate TrailBacked(trail: seq<AuditEvent>, approvals: seq<Approval>) {
    forall i | 0 <= i < |trail| :: Backed(trail[i], approvals)
  }

  // ---------------------------------------------------------------- the invariant

  predicate Gated(v: RunView, r: string) {
    && (v.run.None? ==> v == NO_RUN)
    && (v.run.Some? ==> v.run.value.id == r && StatusFits(v.run.value.status, v.approvals))
    && DistinctIds(v.approvals)
    && OnlyLastUndecided(v.approvals)
    && Subsequence(ReportedStates(v.auditEvents), States(v.checkpoints))
    && TrailBacked(v.auditEvents, v.approvals)
  }

  lemma Stages(v: RunView, r: string, ws: seq<Write>, n: nat)
    requires n <= |ws| <= 3
    ensures n == 0 ==> ApplyViewAll(v, r, ws[..n]) == v
    ensures n == 1 ==> ApplyViewAll(v, r, ws[..n]) == ApplyView(v, r, ws[0])
    ensures n == 2 ==> ApplyViewAll(v, r, ws[..n]) == ApplyView(ApplyView(v, r, ws[0]), r, ws[1])
    ensures n == 3 ==>
      ApplyViewAll(v, r, ws[..n]) == ApplyView(ApplyView(ApplyView(v, r, ws[0]), r, ws[1]), r, ws[2])
  {
    if n > 0 {
      assert ws[..n][..n - 1] == ws[..n - 1];
      Stages(v, r, ws, n - 1);
    }
  }

  lemma GatedCheckpoint(v: RunView, r: string, c: Checkpoint)
    requires Gated(v, r) && v.run.Some? && c.runId == r
    ensures Gated(ApplyView(v, r, InsertCheckpoint(c)), r)
  {
    SubsequenceAppend(ReportedStates(v.auditEvents), States(v.checkpoints), c.state);
    assert States(v.checkpoints + [c]) == States(v.checkpoints) + [c.state];
  }

  lemma TrailBackedAppend(trail: seq<AuditEvent>, e: AuditEvent, approvals: seq<Approval>)
    requires TrailBacked(trail, approvals) && Backed(e, approvals)
    ensures TrailBacked(trail + [e], approvals)
  {
    hide Backed;
  }

  /** A lifecycle event right after the checkpoint it reports. */
  lemma GatedReport(v: RunView, r: string, c: Checkpoint, e: AuditEvent)
    requires Gated(v, r) && v.run.Some? && c.runId == r && e.runId == Some(r)
    requires Reported(e.body) == Some(c.state)
    ensures Gated(ApplyView(ApplyView(v, r, InsertCheckpoint(c)), r, InsertEvent(e)), r)
  {
    hide ReportedStates, Subsequence, DistinctIds, OnlyLastUndecided;
    SubsequenceAppend(ReportedStates(v.auditEvents), States(v.checkpoints), c.state);
    assert States(v.checkpoints + [c]) == States(v.checkpoints) + [c.state];
    ReportedStatesAppend(v.auditEvents, e);
    assert Backed(e, v.approvals);
    TrailBackedAppend(v.auditEvents, e, v.approvals);
    hide States, TrailBacked, Backed;
  }

  /** Any other event, when the approvals back it. */
  lemma GatedEvent(v: RunView, r: string, e: AuditEvent)
    requires Gated(v, r) && v.run.Some?
    requires e.runId == Some(r) && Reported(e.body).None? && Backed(e, v.approvals)
    ensures Gated(ApplyView(v, r, InsertEvent(e)), r)
  {
    ReportedStatesAppend(v.auditEvents, e);
    assert ReportedStates(v.auditEvents + [e]) == ReportedStates(v.auditEvents);
    TrailBackedAppend(v.auditEvents, e, v.approvals);
    hide Backed;
  }

  lemma GatedStatus(
    v: RunView, r: string, status: RunStatus, output: Option<JsonObject>, error: Option<string>, at: string)
    requires Gated(v, r) && v.run.Some? && StatusFits(status, v.approvals)
    ensures Gated(ApplyView(v, r, UpdateRunStatus(r, status, output, error, at)), r)
  {
  }

  lemma GatedRequest(v: RunView, r: string, a: Approval, at: string)
    requires Gated(v, r) && v.run.Some? && a.runId == r && a.status == Undecided
    requires forall i | 0 <= i < |v.approvals| :: v.approvals[i].id != a.id
    requires v.approvals != [] ==> v.approvals[|v.approvals| - 1].status != Undecided
    ensures Gated(ApplyView(v, r, MarkWaiting(a, at)), r)
  {
    forall i | 0 <= i < |v.auditEvents| ensures Backed(v.auditEvents[i], v.approvals + [a]) {
      if IsApprovalEvent(v.auditEvents[i]) {
        var j :| 0 <= j < |v.approvals| && Backs(v.approvals[j], v.auditEvents[i]);
        assert (v.approvals + [a])[j] == v.approvals[j];
      }
    }
  }

  /** The undecided row that a decision finds is the last one. */
  lemma DecisionFindsLast(rows: seq<Approval>, id: string)
    requires DistinctIds(rows) && OnlyLastUndecided(rows)
    requires FindApproval(rows, id).Some? && FindApproval(rows, id).value.status == Undecided
    ensures rows != [] && rows[|rows| - 1] == FindApproval(rows, id).value
    ensures rows[|rows| - 1].id == id && forall i | 0 <= i < |rows| - 1 :: rows[i].id != id
  {
    FindApprovalHasId(rows, id);
    var i :| 0 <= i < |rows| && rows[i] == FindApproval(rows, id).value;
  }

  lemma DecisionKeepsRows(
    rows: seq<Approval>, id: string, decider: string, decision: ApprovalStatus, reason: string, at: string)
    requires DistinctIds(rows) && OnlyLastUndecided(rows) && decision != Undecided
    requires FindApproval(rows, id).Some? && FindApproval(rows, id).value.status == Undecided
    ensures var decided := DecideRows(rows, id, decider, decision, reason, at);
            && DistinctIds(decided) && OnlyLastUndecided(decided)
            && rows != [] && rows[|rows| - 1].status == Undecided
            && (forall i | 0 <= i < |rows| - 1 :: decided[i] == rows[i])
            && decided[|rows| - 1] == Decided(rows[|rows| - 1], decider, decision, reason, at)
  {
    DecisionFindsLast(rows, id);
  }

  lemma DecisionKeepsBacked(trail: seq<AuditEvent>, rows: seq<Approval>, decided: seq<Approval>)
    requires TrailBacked(trail, rows) && rows != [] && rows[|rows| - 1].status == Undecided
    requires |decided| == |rows| && forall i | 0 <= i < |rows| - 1 :: decided[i] == rows[i]
    requires decided[|rows| - 1].id == rows[|rows| - 1].id && decided[|rows| - 1].status != Undecided
    requires decided[|rows| - 1].requestedBy == rows[|rows| - 1].requestedBy
    ensures TrailBacked(trail, decided)
  {
    forall i | 0 <= i < |trail| ensures Backed(trail[i], decided) {
      if IsApprovalEvent(trail[i]) {
        var j :| 0 <= j < |rows| && Backs(rows[j], trail[i]);
        assert Backs(decided[j], trail[i]);
      }
    }
  }

  lemma GatedDecision(
    v: RunView, r: string, id: string, decider: string, decision: ApprovalStatus, reason: string, at: string)
    requires Gated(v, r) && decision != Undecided
    requires FindApproval(v.approvals, id).Some? && FindApproval(v.approvals, id).value.status == Undecided
    ensures Gated(ApplyView(v, r, UpdateApproval(id, decider, decision, reason, at)), r)
  {
    hide ReportedStates, States, Subsequence, TrailBacked, DistinctIds, OnlyLastUndecided, FindApproval;
    DecisionKeepsRows(v.approvals, id, decider, decision, reason, at);
    DecisionKeepsBacked(v.auditEvents, v.approvals, DecideRows(v.approvals, id, decider, decision, reason, at));
  }

  // ---------------------------------------------------------------- every call, cut anywhere

  /** The approval id of a request is new to the run, and a created run is new. */
  predicate FreshFor(v: RunView, r: string, c: Call) {
    && (c.op.Create? ==> v.run.None?)
    && (c.op.RequestApproval? ==> forall i | 0 <= i < |v.approvals| :: v.approvals[i].id != c.d0.id)
  }

  /** The call works on run `r`. */
  predicate Aims(v: RunView, r: string, c: Call) {
    match c.op
    case Create(_, _, _, _) => c.d0.id == r
    case DecideApproval(id, _, _, _, _) =>
      FindApproval(v.approvals, id).Some? ==> FindApproval(v.approvals, id).value.runId == r
    case Record(_, about, _, body, _) => about == Some(r) && !IsLifecycle(body) && v.run.Some?
    case _ => c.op.runId == r
  }

  lemma TransitionKeepsGated(
    v: RunView, r: string, c: Call, status: RunStatus, state: CheckpointState, body: EventBody, n: nat)
    requires Gated(v, r) && v.run.Some? && IsTransition(c.op) && c.op.runId == r && n <= 3
    requires StatusFits(status, v.approvals) && Reported(body) == Some(state)
    ensures Gated(ApplyViewAll(v, r, Transition(v.run.value, c, status, state, body).value[..n]), r)
  {
    var ws := Transition(v.run.value, c, status, state, body).value;
    Stages(v, r, ws, n);
    GatedStatus(v, r, status, None, None, c.d0.at);
    var v1 := ApplyView(v, r, ws[0]);
    GatedCheckpoint(v1, r, ws[1].checkpoint);
    GatedReport(v1, r, ws[1].checkpoint, ws[2].event);
    hide Gated, StatusFits;
  }

  lemma TransitionsKeepGated(v: RunView, r: string, c: Call, n: nat)
    requires Gated(v, r) && v.run.Some? && IsTransition(c.op) && c.op.runId == r && n <= 3
    requires PlanOnRun(v.run.value, v.approvals, c).Success?
    ensures Gated(ApplyViewAll(v, r, PlanOnRun(v.run.value, v.approvals, c).value[..n]), r)
  {
    var run, reason := v.run.value, c.op.reason;
    match c.op
    case Resume(_, _, _) =>
      TransitionKeepsGated(v, r, c, Running, ResumeState(run.status, reason), RunResumed(reason, run.status), n);
    case Interrupt(_, _, _) =>
      TransitionKeepsGated(v, r, c, Interrupted, InterruptedState(reason), RunInterrupted(reason), n);
    case Retry(_, _, _) =>
      TransitionKeepsGated(v, r, c, Pending, RetriedState(reason), RunRetried(reason), n);
    case Cancel(_, _, _) =>
      TransitionKeepsGated(v, r, c, Canceled, CanceledState(reason), RunCanceled(reason), n);
  }

  lemma CreateKeepsGated(v: RunView, r: string, c: Call, n: nat)
    requires v == NO_RUN && c.op.Create? && c.d0.id == r && n <= 3
    ensures Gated(ApplyViewAll(v, r, PlanCreate(c).value[..n]), r)
  {
    var ws := PlanCreate(c).value;
    Stages(v, r, ws, n);
    var v1 := ApplyView(v, r, ws[0]);
    assert Gated(v1, r);
    GatedCheckpoint(v1, r, ws[1].checkpoint);
    GatedReport(v1, r, ws[1].checkpoint, ws[2].event);
    hide Gated;
  }

  lemma RequestKeepsGated(v: RunView, r: string, c: Call, n: nat)
    requires Gated(v, r) && v.run.Some? && c.op.RequestApproval? && c.op.runId == r && FreshFor(v, r, c)
    requires PlanRequest(v.run.value, v.approvals, c).Success? && n <= 3
    ensures Gated(ApplyViewAll(v, r, PlanRequest(v.run.value, v.approvals, c).value[..n]), r)
  {
    hide TrailBacked, Subsequence, ReportedStates, States, OnlyLastUndecided;
    var ws := PlanRequest(v.run.value, v.approvals, c).value;
    Stages(v, r, ws, n);
    GatedRequest(v, r, ws[0].approval, c.d0.at);
    var v1 := ApplyView(v, r, ws[0]);
    GatedEvent(v1, r, ws[1].event);
    var v2 := ApplyView(v1, r, ws[1]);
    assert Backs(v2.approvals[|v.approvals|], ws[2].event);
    GatedEvent(v2, r, ws[2].event);
    hide Gated;
  }

  lemma DecideKeepsGated(v: RunView, r: string, c: Call, n: nat)
    requires Gated(v, r) && c.op.DecideApproval? && Aims(v, r, c)
    requires PlanView(v, c).Success? && n <= 2
    ensures Gated(ApplyViewAll(v, r, PlanView(v, c).value[..n]), r)
  {
    var ws := PlanView(v, c).value;
    Stages(v, r, ws, n);
    var w := ws[0];
    GatedDecision(v, r, w.approvalId, w.decider, w.decision, w.reason, w.at);
    DecisionFindsLast(v.approvals, w.approvalId);
    var v1 := ApplyView(v, r, w);
    assert Backs(v1.approvals[|v.approvals| - 1], ws[1].event);
    GatedEvent(v1, r, ws[1].event);
    hide Gated;
  }

  /** Every call on the run, stopped after any number of its transactions, keeps the invariant. */
  lemma CallKeepsGated(v: RunView, r: string, a: Attempt)
    requires Gated(v, r) && Aims(v, r, a.call) && FreshFor(v, r, a.call)
    ensures Gated(ExecView(v, r, a), r)
  {
    var c := a.call;
    var ws := WritesView(v, c);
    var n := if a.committed < |ws| then a.committed else |ws|;
    assert Prefix(ws, a.committed) == ws[..n];
    if c.op.Create? {
      CreateKeepsGated(v, r, c, n);
    } else if c.op.Record? {
      Stages(v, r, ws, n);
      GatedEvent(v, r, ws[0].event);
    } else if PlanView(v, c).Success? {
      if c.op.DecideApproval? {
        DecideKeepsGated(v, r, c, n);
      } else if c.op.RequestApproval? {
        RequestKeepsGated(v, r, c, n);
      } else {
        TransitionsKeepGated(v, r, c, n);
      }
    }
    hide Gated, Transition;
  }

  /**
   A decision settles whether a live run may resume: an approval opens the gate, and a denial
   keeps it shut whatever requests were approved before.
   */
  lemma DecisionSettlesResume(v: RunView, r: string, decide: Call, resume: Call)
    requires Gated(v, r) && v.run.Some? && v.run.value.status != Canceled
    requires decide.op.DecideApproval? && PlanView(v, decide).Success? && Aims(v, r, decide)
    requires resume.op.Resume? && resume.op.runId == r
    ensures var after := ApplyViewAll(v, r, WritesView(v, decide));
            && (decide.op.approve ==> PlanView(after, resume).Success?)
            && (!decide.op.approve ==> PlanView(after, resume) == Failure(PolicyDeniedError(Denied)))
  {
    hide TrailBacked, ReportedStates, States, Subsequence;
    var ws := WritesView(v, decide);
    Stages(v, r, ws, 2);
    assert ws[..2] == ws;
    DecisionFindsLast(v.approvals, decide.op.approvalId);
    hide DistinctIds, OnlyLastUndecided, FindApproval;
  }

  // ---------------------------------------------------------------- where the assumptions matter

  /** The run's approvals were stamped one after the other by an advancing clock. */
  predicate Requested(rows: seq<Approval>, stamp: Approval -> Instant) {
    rows != [] && Stamped(rows, ApprovalKey, stamp) && ClockAdvances(rows, stamp)
  }

  /** Row `i` dropped its fraction and the newest row was created within the same second. */
  predicate Overtakes(rows: seq<Approval>, stamp: Approval -> Instant, i: int) {
    0 <= i < |rows| - 1 && FractionDropped(stamp(rows[i]), stamp(rows[|rows| - 1]))
  }

  /** The approval both guards read: the newest one, or the one that overtakes it. */
  lemma ListedLast(s: Store, r: string, stamp: Approval -> Instant) returns (i: nat)
    requires Requested(Where(s.approvals, ApprovalOf(r)), stamp)
    ensures var rows, listed := Where(s.approvals, ApprovalOf(r)), ListApprovalsForRun(s, r);
            && |listed| == |rows| && i < |rows| && listed[|rows| - 1] == rows[i]
            && (i == |rows| - 1 || Overtakes(rows, stamp, i))
            && forall j | Overtakes(rows, stamp, j) :: listed[|rows| - 1] == rows[j]
  {
    var rows := Where(s.approvals, ApprovalOf(r));
    i := |rows| - 1;
    if j :| Overtakes(rows, stamp, j) {
      i := j;
    } else {
      forall j | 0 <= j < |rows| - 1 ensures !FractionDropped(stamp(rows[j]), stamp(rows[|rows| - 1])) {
        assert !Overtakes(rows, stamp, j);
      }
    }
    ShownLastIsListedLast(rows, ApprovalKey, stamp, i);
    forall j | Overtakes(rows, stamp, j)
      ensures ListApprovalsForRun(s, r)[|rows| - 1] == rows[j]
    {
      ShownLastIsListedLast(rows, ApprovalKey, stamp, j);
    }
    hide OrderBy, Where, Stamped, ClockAdvances;
  }

  /**
   The gate answers by the latest approval in text order. It answers other than by the newest
   approval exactly when an approval with another status overtakes that one; in particular an
   open request is ignored exactly when an approved one overtakes it.
   */
  lemma ResumeMisreadsLatestIff(s: Store, r: string, stamp: Approval -> Instant)
    requires Requested(Where(s.approvals, ApprovalOf(r)), stamp)
    ensures var rows := Where(s.approvals, ApprovalOf(r));
            var newest, answer := rows[|rows| - 1], ResumeDenial(ListApprovalsForRun(s, r));
            && (answer != ResumeDenial(rows) <==>
                  exists i :: Overtakes(rows, stamp, i) && rows[i].status != newest.status)
            && (newest.status == Undecided ==>
                  (answer.None? <==> exists i :: Overtakes(rows, stamp, i) && rows[i].status == Approved))
  {
    hide Requested, Overtakes, ListApprovalsForRun, Where;
    var i := ListedLast(s, r, stamp);
  }

  predicate LastUndecided(rows: seq<Approval>) {
    rows != [] && rows[|rows| - 1].status == Undecided
  }

  lemma TwoUndecided(rows: seq<Approval>, i: nat)
    requires i < |rows| - 1 && rows[i].status == Undecided
    ensures !OnlyLastUndecided(rows)
  {
  }

  lemma RequestStages(s: Store, ws: seq<Write>, n: nat)
    requires |ws| == 3 && ws[0].MarkWaiting? && ws[1].InsertEvent? && ws[2].InsertEvent? && 0 < n <= 3
    ensures ApplyAll(s, ws[..n]).approvals == s.approvals + [ws[0].approval]
  {
    assert ws[..n][..n - 1] == ws[..n - 1];
    if n > 1 {
      RequestStages(s, ws, n - 1);
    } else {
      assert ws[..0] == [];
    }
  }

  lemma RequestAddsRow(s: Store, r: string, a: Attempt)
    requires a.call.op.RequestApproval? && a.call.op.runId == r && a.committed > 0
    ensures var rows, after := Where(s.approvals, ApprovalOf(r)), Where(Exec(s, a).approvals, ApprovalOf(r));
            if Plan(s, a.call).Failure? then after == rows
            else exists x: Approval :: x.status == Undecided && after == rows + [x]
  {
    hide ListApprovalsForRun, Where, InsertEventError;
    if Plan(s, a.call).Success? {
      var ws := Writes(s, a.call);
      var n := if a.committed < 3 then a.committed else 3;
      assert Committed(s, a) == ws[..n];
      RequestStages(s, ws, n);
      WhereAppend(s.approvals, ws[0].approval, ApprovalOf(r));
    }
  }

  /**
   The guard against a second open request reads the same listing. It misses the open request
   exactly when a decided approval overtakes it, and the run then has two.
   */
  lemma SecondRequestPassesIff(s: Store, r: string, stamp: Approval -> Instant, a: Attempt)
    requires Requested(Where(s.approvals, ApprovalOf(r)), stamp)
    requires a.call.op.RequestApproval? && a.call.op.runId == r && a.committed > 0
    requires r in s.runs && s.runs[r].status !in {Completed, Canceled, Failed}
    requires LastUndecided(Where(s.approvals, ApprovalOf(r)))
    ensures var rows := Where(s.approvals, ApprovalOf(r));
            var after := Where(Exec(s, a).approvals, ApprovalOf(r));
            && (Plan(s, a.call).Success? <==> exists i :: Overtakes(rows, stamp, i) && rows[i].status != Undecided)
            && (Plan(s, a.call).Success? ==> |after| == |rows| + 1 && LastUndecided(after) && !OnlyLastUndecided(after))
            && (Plan(s, a.call).Failure? ==> after == rows)
  {
    hide Requested, Overtakes, ListApprovalsForRun, Where, Exec, OnlyLastUndecided;
    var i := ListedLast(s, r, stamp);
    RequestAddsRow(s, r, a);
    var rows, after := Where(s.approvals, ApprovalOf(r)), Where(Exec(s, a).approvals, ApprovalOf(r));
    if Plan(s, a.call).Success? {
      assert after[|rows| - 1].status == Undecided;
      TwoUndecided(after, |rows| - 1);
    }
  }

  /**
   Calls must be serialised: a resume that read the run before an approval request committed,
   and writes after it, leaves the run running with an undecided approval.
   */
  lemma InterleavedResumePassesGate(v: RunView, r: string, request: Call, resume: Call)
    requires v.run.Some? && request.op.RequestApproval? && request.op.runId == r
    requires resume.op.Resume? && resume.op.runId == r
    requires PlanRequest(v.run.value, v.approvals, request).Success?
    requires PlanResume(v.run.value, v.approvals, resume).Success?
    ensures var requested := ApplyViewAll(v, r, PlanRequest(v.run.value, v.approvals, request).value);
            var resumed := ApplyViewAll(requested, r, PlanResume(v.run.value, v.approvals, resume).value);
            && resumed.run.Some? && resumed.run.value.status == Running
            && ResumeDenial(resumed.approvals) == Some(PolicyDeniedError(Undecided))
            && !Gated(resumed, r)
  {
    var ws := PlanRequest(v.run.value, v.approvals, request).value;
    var us := PlanResume(v.run.value, v.approvals, resume).value;
    Stages(v, r, ws, 3);
    assert ws[..3] == ws;
    var requested := ApplyViewAll(v, r, ws);
    Stages(requested, r, us, 3);
    assert us[..3] == us;
    hide DistinctIds, OnlyLastUndecided, TrailBacked, ReportedStates, States;
  }
}
