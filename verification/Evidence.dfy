/**
 The audit trail as evidence: folding a run's trail alone gives back its stored status and its
 whole approvals list, as long as no call on the run stopped between two transactions.
 */
module Evidence {
  import opened Text
  import opened Records
  import opened Store
  import opened Lifecycle
  import opened Histories
  import opened RunViews
  import opened Gating
  import opened Reachability

  // ---------------------------------------------------------------- replay

  /** An approval as the trail tells it. */
  datatype Seen = Seen(
    id: string, status: ApprovalStatus, reason: string, requestedBy: Option<string>, approvedBy: Option<string>)

  datatype Replayed = Replayed(status: Option<RunStatus>, approvals: seq<Seen>)

  function SeeDecision(rows: seq<Seen>, id: string, status: ApprovalStatus, reason: string, decider: Option<string>)
    : (r: seq<Seen>)
    ensures |r| == |rows|
  {
    seq(|rows|, i requires 0 <= i < |rows| =>
      if rows[i].id == id then rows[i].(status := status, reason := reason, approvedBy := decider) else rows[i])
  }

  function ReplayEvent(p: Replayed, e: AuditEvent): Replayed {
    match e.body
    case RunCreated(_, _) => p.(status := Some(Pending))
    case RunResumed(_, _) => p.(status := Some(Running))
    case RunInterrupted(_) => p.(status := Some(Interrupted))
    case RunRetried(_) => p.(status := Some(Pending))
    case RunCanceled(_) => p.(status := Some(Canceled))
    case RunWaitingApproval(_) => p.(status := Some(WaitingApproval))
    case ApprovalRequested(id, reason) =>
      p.(approvals := p.approvals + [Seen(id, Undecided, reason, e.actorUserId, None)])
    case ApprovalDecided(id, status, reason) =>
      p.(approvals := SeeDecision(p.approvals, id, status, reason, e.actorUserId))
    case _ => p
  }

  /** Reads a trail from its first event to its last. */
  function Replay(trail: seq<AuditEvent>): Replayed {
    if trail == [] then Replayed(None, [])
    else ReplayEvent(Replay(trail[..|trail| - 1]), trail[|trail| - 1])
  }

  function AsSeen(a: Approval): Seen {
    Seen(a.id, a.status, a.reason, Some(a.requestedBy), a.approvedBy)
  }

  function StoredRows(rows: seq<Approval>): seq<Seen> {
    seq(|rows|, i requires 0 <= i < |rows| => AsSeen(rows[i]))
  }

  /** What the tables say of the run. */
  function Stored(v: RunView): Replayed {
    Replayed(if v.run.Some? then Some(v.run.value.status) else None,
             StoredRows(v.approvals))
  }

  lemma ReplayAppend(trail: seq<AuditEvent>, e: AuditEvent)
    ensures Replay(trail + [e]) == ReplayEvent(Replay(trail), e)
  {
    assert (trail + [e])[..|trail|] == trail;
  }

  // ---------------------------------------------------------------- counting approvals

  function Requests(trail: seq<AuditEvent>): nat {
    if trail == [] then 0
    else Requests(trail[..|trail| - 1]) + if trail[|trail| - 1].body.ApprovalRequested? then 1 else 0
  }

  function Decisions(trail: seq<AuditEvent>): nat {
    if trail == [] then 0
    else Decisions(trail[..|trail| - 1]) + if trail[|trail| - 1].body.ApprovalDecided? then 1 else 0
  }

  lemma CountsAppend(trail: seq<AuditEvent>, e: AuditEvent)
    ensures Requests(trail + [e]) == Requests(trail) + if e.body.ApprovalRequested? then 1 else 0
    ensures Decisions(trail + [e]) == Decisions(trail) + if e.body.ApprovalDecided? then 1 else 0
  {
    assert (trail + [e])[..|trail|] == trail;
  }

  function UndecidedCount(rows: seq<Approval>): nat {
    if rows == [] then 0
    else UndecidedCount(rows[..|rows| - 1]) + if rows[|rows| - 1].status == Undecided then 1 else 0
  }

  lemma {:induction false} NoneUndecided(rows: seq<Approval>)
    requires forall i | 0 <= i < |rows| :: rows[i].status != Undecided
    ensures UndecidedCount(rows) == 0
  {
    if rows != [] {
      NoneUndecided(rows[..|rows| - 1]);
    }
  }

  /** At most one approval is undecided. */
  lemma AtMostOneUndecided(rows: seq<Approval>)
    requires OnlyLastUndecided(rows)
    ensures UndecidedCount(rows) == if rows != [] && rows[|rows| - 1].status == Undecided then 1 else 0
  {
    if rows != [] {
      NoneUndecided(rows[..|rows| - 1]);
    }
  }

  /** A decision closes the one undecided approval. */
  lemma DecisionCounts(
    rows: seq<Approval>, id: string, decider: string, decision: ApprovalStatus, reason: string, at: string)
    requires DistinctIds(rows) && OnlyLastUndecided(rows) && decision != Undecided
    requires FindApproval(rows, id).Some? && FindApproval(rows, id).value.status == Undecided
    ensures rows != [] && rows[|rows| - 1].id == id
    ensures UndecidedCount(rows) == 1 && UndecidedCount(DecideRows(rows, id, decider, decision, reason, at)) == 0
  {
    DecisionFindsLast(rows, id);
    AtMostOneUndecided(rows);
    hide DistinctIds, FindApproval;
    NoneUndecided(DecideRows(rows, id, decider, decision, reason, at));
  }

  // ---------------------------------------------------------------- justified resumes

  /** The events before a resume show no open or refused approval, and its `from_status`. */
  predicate Justifies(p: Replayed, e: AuditEvent) {
    e.body.RunResumed? ==>
      && p.status == Some(e.body.fromStatus)
      && (p.approvals == [] || p.approvals[|p.approvals| - 1].status == Approved)
  }

  predicate ResumesJustified(trail: seq<AuditEvent>) {
    forall i | 0 <= i < |trail| :: Justifies(Replay(trail[..i]), trail[i])
  }

  lemma ResumesJustifiedAppend(trail: seq<AuditEvent>, e: AuditEvent)
    requires ResumesJustified(trail) && Justifies(Replay(trail), e)
    ensures ResumesJustified(trail + [e])
  {
    var t := trail + [e];
    forall i | 0 <= i < |t| ensures Justifies(Replay(t[..i]), t[i]) {
      assert t[..i] == trail[..i];
      assert trail[..|trail|] == trail;
    }
    hide Justifies;
  }

  /**
   The preceding trail itself: no approval was ever requested, or the last request was followed
   by an approved decision on that same request.
   */
  predicate ApprovedBefore(trail: seq<AuditEvent>) {
    || (forall i | 0 <= i < |trail| :: !trail[i].body.ApprovalRequested?)
    || exists i, j :: 0 <= i < j < |trail| && LastRequestApproved(trail, i, j)
  }

  predicate LastRequestApproved(trail: seq<AuditEvent>, i: nat, j: nat)
    requires i < j < |trail|
  {
    && trail[i].body.ApprovalRequested?
    && (forall k | i < k < |trail| :: !trail[k].body.ApprovalRequested?)
    && trail[j].body.ApprovalDecided?
    && trail[j].body.approvalId == trail[i].body.approvalId
    && trail[j].body.status == Approved
  }

  /** Where the last replayed approval was requested, and what was last decided about it. */
  lemma {:induction false} LastApprovalInTrail(trail: seq<AuditEvent>)
    returns (i: int, j: int)
    ensures Replay(trail).approvals == [] ==> forall k | 0 <= k < |trail| :: !trail[k].body.ApprovalRequested?
    ensures Replay(trail).approvals != [] ==>
      var last := Replay(trail).approvals[|Replay(trail).approvals| - 1];
      && 0 <= i < |trail| && trail[i].body.ApprovalRequested? && trail[i].body.approvalId == last.id
      && (forall k | i < k < |trail| :: !trail[k].body.ApprovalRequested?)
      && (last.status != Undecided ==>
           && i < j < |trail| && trail[j].body.ApprovalDecided?
           && trail[j].body.approvalId == last.id && trail[j].body.status == last.status)
  {
    i, j := -1, -1;
    if trail != [] {
      var n := |trail| - 1;
      i, j := LastApprovalInTrail(trail[..n]);
      var e := trail[n];
      var before := Replay(trail[..n]).approvals;
      if e.body.ApprovalRequested? {
        i := n;
      } else if e.body.ApprovalDecided? && before != [] && before[|before| - 1].id == e.body.approvalId {
        j := n;
      }
    }
  }

  lemma ReplayedApprovalWasGiven(trail: seq<AuditEvent>)
    requires Replay(trail).approvals == [] ||
             Replay(trail).approvals[|Replay(trail).approvals| - 1].status == Approved
    ensures ApprovedBefore(trail)
  {
    var i, j := LastApprovalInTrail(trail);
    if Replay(trail).approvals != [] {
      assert LastRequestApproved(trail, i, j);
    }
  }

  // ---------------------------------------------------------------- the evidence invariant

  predicate Evident(v: RunView) {
    && Replay(v.auditEvents) == Stored(v)
    && ReportedStates(v.auditEvents) == States(v.checkpoints)
    && Requests(v.auditEvents) == Decisions(v.auditEvents) + UndecidedCount(v.approvals)
    && ResumesJustified(v.auditEvents)
  }

  /** `after` differs from `v` by one event and by what that event tells. */
  predicate Tells(v: RunView, after: RunView, e: AuditEvent) {
    && after.auditEvents == v.auditEvents + [e]
    && Stored(after) == ReplayEvent(Stored(v), e)
    && States(after.checkpoints) == States(v.checkpoints) + ReportedBy(e)
    && UndecidedCount(after.approvals) + (if e.body.ApprovalDecided? then 1 else 0)
       == UndecidedCount(v.approvals) + (if e.body.ApprovalRequested? then 1 else 0)
    && Justifies(Stored(v), e)
  }

  lemma TellingKeepsEvident(v: RunView, after: RunView, e: AuditEvent)
    requires Evident(v) && Tells(v, after, e)
    ensures Evident(after)
  {
    hide Stored, States, UndecidedCount, Requests, Decisions, Replay, ReportedStates, ReplayEvent, Justifies;
    ReplayAppend(v.auditEvents, e);
    CountsAppend(v.auditEvents, e);
    ReportedStatesAppend(v.auditEvents, e);
    ResumesJustifiedAppend(v.auditEvents, e);
    hide ResumesJustified;
  }

  /** An event recorded by another service tells nothing about the run. */
  lemma OtherEventKeepsEvident(v: RunView, r: string, e: AuditEvent)
    requires Evident(v) && e.runId == Some(r) && !IsLifecycle(e.body)
    ensures Evident(ApplyView(v, r, InsertEvent(e)))
  {
    assert Tells(v, ApplyView(v, r, InsertEvent(e)), e) by {
      hide Evident;
    }
    TellingKeepsEvident(v, ApplyView(v, r, InsertEvent(e)), e);
    hide Evident;
  }

  /** The status an event leaves the run in, for the events of create and the transitions. */
  predicate Announces(body: EventBody, status: RunStatus) {
    match body
    case RunCreated(_, _) => status == Pending
    case RunResumed(_, _) => status == Running
    case RunInterrupted(_) => status == Interrupted
    case RunRetried(_) => status == Pending
    case RunCanceled(_) => status == Canceled
    case _ => false
  }

  /** A status write, its checkpoint and the event that reports both. */
  lemma ReportKeepsEvident(v: RunView, v1: RunView, r: string, c: Checkpoint, e: AuditEvent)
    requires Evident(v) && v1 == v.(run := v1.run) && v1.run.Some? && c.runId == r && e.runId == Some(r)
    requires Reported(e.body) == Some(c.state) && Announces(e.body, v1.run.value.status) && Justifies(Stored(v), e)
    ensures Evident(ApplyView(ApplyView(v1, r, InsertCheckpoint(c)), r, InsertEvent(e)))
  {
    var after := ApplyView(ApplyView(v1, r, InsertCheckpoint(c)), r, InsertEvent(e));
    assert Tells(v, after, e) by {
      hide Evident, Justifies;
      assert States(v.checkpoints + [c]) == States(v.checkpoints) + [c.state];
    }
    TellingKeepsEvident(v, after, e);
    hide Evident;
  }

  lemma TransitionKeepsEvident(
    v: RunView, r: string, c: Call, status: RunStatus, state: CheckpointState, body: EventBody)
    requires Evident(v) && v.run.Some? && v.run.value.id == r && IsTransition(c.op) && c.op.runId == r
    requires Reported(body) == Some(state) && Announces(body, status)
    requires forall e: AuditEvent | e.body == body :: Justifies(Stored(v), e)
    ensures Evident(ApplyViewAll(v, r, Transition(v.run.value, c, status, state, body).value))
  {
    var ws := Transition(v.run.value, c, status, state, body).value;
    Stages(v, r, ws, 3);
    assert ws[..3] == ws;
    ReportKeepsEvident(v, ApplyView(v, r, ws[0]), r, ws[1].checkpoint, ws[2].event);
    hide Evident, Stored;
  }

  lemma CreateKeepsEvident(r: string, c: Call)
    requires c.op.Create? && c.d0.id == r
    ensures Evident(ApplyViewAll(NO_RUN, r, PlanCreate(c).value))
  {
    var ws := PlanCreate(c).value;
    Stages(NO_RUN, r, ws, 3);
    assert ws[..3] == ws;
    assert Evident(NO_RUN);
    ReportKeepsEvident(NO_RUN, ApplyView(NO_RUN, r, ws[0]), r, ws[1].checkpoint, ws[2].event);
    hide Evident;
  }

  lemma UndecidedCountAppend(rows: seq<Approval>, a: Approval)
    ensures UndecidedCount(rows + [a]) == UndecidedCount(rows) + if a.status == Undecided then 1 else 0
  {
    assert (rows + [a])[..|rows|] == rows;
  }

  lemma RequestTells(v: RunView, after: RunView, a: Approval, e: AuditEvent)
    requires a.status == Undecided && a.approvedBy == None
    requires e.body == ApprovalRequested(a.id, a.reason) && e.actorUserId == Some(a.requestedBy)
    requires after == v.(approvals := v.approvals + [a], auditEvents := v.auditEvents + [e])
    ensures Tells(v, after, e)
  {
    UndecidedCountAppend(v.approvals, a);
    assert StoredRows(v.approvals + [a]) == StoredRows(v.approvals) + [AsSeen(a)];
    hide States, UndecidedCount;
  }

  lemma DecisionTells(
    v: RunView, after: RunView, id: string, decider: string, decision: ApprovalStatus, reason: string, at: string,
    e: AuditEvent)
    requires DistinctIds(v.approvals) && OnlyLastUndecided(v.approvals) && decision != Undecided
    requires FindApproval(v.approvals, id).Some? && FindApproval(v.approvals, id).value.status == Undecided
    requires e.body == ApprovalDecided(id, decision, reason) && e.actorUserId == Some(decider)
    requires after == v.(approvals := DecideRows(v.approvals, id, decider, decision, reason, at),
                         auditEvents := v.auditEvents + [e])
    ensures Tells(v, after, e)
  {
    DecisionFindsLast(v.approvals, id);
    AtMostOneUndecided(v.approvals);
    AtMostOneUndecided(after.approvals);
    assert StoredRows(after.approvals) == SeeDecision(StoredRows(v.approvals), id, decision, reason, Some(decider));
    hide States, UndecidedCount, FindApproval, DistinctIds, OnlyLastUndecided;
  }

  lemma RequestKeepsEvident(v: RunView, r: string, c: Call)
    requires Evident(v) && v.run.Some? && v.run.value.id == r && c.op.RequestApproval? && c.op.runId == r
    requires PlanRequest(v.run.value, v.approvals, c).Success?
    ensures Evident(ApplyViewAll(v, r, PlanRequest(v.run.value, v.approvals, c).value))
  {
    var ws := PlanRequest(v.run.value, v.approvals, c).value;
    Stages(v, r, ws, 3);
    assert ws[..3] == ws;
    var a, e1, e2 := ws[0].approval, ws[1].event, ws[2].event;
    var marked := ApplyView(v, r, ws[0]);
    var waiting := v.(run := marked.run, auditEvents := v.auditEvents + [e1]);
    var requested := ApplyView(ApplyView(marked, r, ws[1]), r, ws[2]);
    assert Tells(v, waiting, e1) by {
      hide Evident;
    }
    TellingKeepsEvident(v, waiting, e1);
    hide Evident, Tells;
    RequestTells(waiting, requested, a, e2);
    TellingKeepsEvident(waiting, requested, e2);
  }

  lemma DecideKeepsEvident(v: RunView, r: string, c: Call)
    requires Gated(v, r) && Evident(v) && c.op.DecideApproval? && Aims(v, r, c) && PlanView(v, c).Success?
    ensures Evident(ApplyViewAll(v, r, PlanView(v, c).value))
  {
    hide Evident, Tells;
    var ws := PlanView(v, c).value;
    Stages(v, r, ws, 2);
    assert ws[..2] == ws;
    var w, e := ws[0], ws[1].event;
    var after := ApplyView(ApplyView(v, r, w), r, ws[1]);
    FindApprovalHasId(v.approvals, w.approvalId);
    DecisionTells(v, after, w.approvalId, w.decider, w.decision, w.reason, w.at, e);
    TellingKeepsEvident(v, after, e);
  }

  lemma TransitionsKeepEvident(v: RunView, r: string, c: Call)
    requires Evident(v) && v.run.Some? && v.run.value.id == r && IsTransition(c.op) && c.op.runId == r
    requires PlanOnRun(v.run.value, v.approvals, c).Success?
    ensures Evident(ApplyViewAll(v, r, PlanOnRun(v.run.value, v.approvals, c).value))
  {
    var run, reason := v.run.value, c.op.reason;
    match c.op
    case Resume(_, _, _) =>
      TransitionKeepsEvident(v, r, c, Running, ResumeState(run.status, reason), RunResumed(reason, run.status));
    case Interrupt(_, _, _) =>
      TransitionKeepsEvident(v, r, c, Interrupted, InterruptedState(reason), RunInterrupted(reason));
    case Retry(_, _, _) =>
      TransitionKeepsEvident(v, r, c, Pending, RetriedState(reason), RunRetried(reason));
    case Cancel(_, _, _) =>
      TransitionKeepsEvident(v, r, c, Canceled, CanceledState(reason), RunCanceled(reason));
  }

  /** Every call that runs to its end keeps the evidence complete. */
  lemma CallKeepsEvident(v: RunView, r: string, c: Call)
    requires Gated(v, r) && Evident(v) && Aims(v, r, c) && FreshFor(v, r, c)
    ensures Evident(ApplyViewAll(v, r, WritesView(v, c)))
  {
    if c.op.Create? {
      CreateKeepsEvident(r, c);
    } else if c.op.Record? {
      var ws := WritesView(v, c);
      Stages(v, r, ws, 1);
      assert ws[..1] == ws;
      OtherEventKeepsEvident(v, r, ws[0].event);
    } else if PlanView(v, c).Success? {
      if c.op.DecideApproval? {
        DecideKeepsEvident(v, r, c);
      } else if c.op.RequestApproval? {
        RequestKeepsEvident(v, r, c);
      } else {
        TransitionsKeepEvident(v, r, c);
      }
    }
    hide Evident, Transition;
  }

  // ---------------------------------------------------------------- every reachable state

  /** No call on run `r` stopped between two of its transactions; calls on other runs may have. */
  predicate UninterruptedOn(s: Store, history: seq<Attempt>, r: string) {
    history != [] ==>
      var front, last := history[..|history| - 1], history[|history| - 1];
      && UninterruptedOn(s, front, r)
      && (Target(After(s, front), last.call) == Some(r) ==> Complete(After(s, front), last) || last.committed == 0)
  }

  lemma ExecKeepsEvident(s: Store, a: Attempt, r: string)
    requires Sound(s) && WellFormed(a.call) && AdmitsAll(s, Committed(s, a))
    requires Gated(ViewOf(s, r), r) && Evident(ViewOf(s, r))
    requires Target(s, a.call) == Some(r) ==> Complete(s, a) || a.committed == 0
    ensures Evident(ViewOf(Exec(s, a), r))
  {
    if Committed(s, a) != [] {
      CallActsOnOneRun(s, a, r);
      if Target(s, a.call) == Some(r) {
        CommittedIsFresh(s, a, r);
        CallKeepsEvident(ViewOf(s, r), r, a.call);
        var ws := Writes(s, a.call);
        assert ws[..|ws|] == ws;
      }
    }
    hide Evident, Gated, ViewOf, Plan, PlanView;
  }

  lemma {:induction false} ReachableIsEvident(history: seq<Attempt>, r: string)
    requires Admissible(EMPTY, history) && UninterruptedOn(EMPTY, history, r)
    ensures Evident(ViewOf(After(EMPTY, history), r))
  {
    if history != [] {
      var front, last := history[..|history| - 1], history[|history| - 1];
      ReachableIsEvident(front, r);
      ReachableIsGated(front, r);
      ReachableIsSound(front);
      ExecKeepsEvident(After(EMPTY, front), last, r);
    } else {
      assert ViewOf(EMPTY, r) == NO_RUN;
    }
  }

  /** Replaying the run's audit trail reconstructs its stored status and its approvals list. */
  lemma TrailReconstructsRun(history: seq<Attempt>, r: string)
    requires Admissible(EMPTY, history) && UninterruptedOn(EMPTY, history, r)
    ensures var v := ViewOf(After(EMPTY, history), r);
            Replay(v.auditEvents) == Stored(v)
  {
    ReachableIsEvident(history, r);
  }

  /** The trail without approval and tool events reports exactly the run's checkpoints. */
  lemma TrailReportsCheckpoints(history: seq<Attempt>, r: string)
    requires Admissible(EMPTY, history) && UninterruptedOn(EMPTY, history, r)
    ensures var v := ViewOf(After(EMPTY, history), r);
            ReportedStates(v.auditEvents) == States(v.checkpoints)
  {
    ReachableIsEvident(history, r);
  }

  /** Every resume in the trail was allowed by what the trail says before it. */
  lemma EveryResumeWasAllowed(history: seq<Attempt>, r: string, i: nat)
    requires Admissible(EMPTY, history) && UninterruptedOn(EMPTY, history, r)
    requires i < |ViewOf(After(EMPTY, history), r).auditEvents|
    requires ViewOf(After(EMPTY, history), r).auditEvents[i].body.RunResumed?
    ensures var trail := ViewOf(After(EMPTY, history), r).auditEvents;
            && ApprovedBefore(trail[..i])
            && Replay(trail[..i]).status == Some(trail[i].body.fromStatus)
  {
    ReachableIsEvident(history, r);
    var trail := ViewOf(After(EMPTY, history), r).auditEvents;
    assert Justifies(Replay(trail[..i]), trail[i]);
    ReplayedApprovalWasGiven(trail[..i]);
    hide ViewOf, ApprovedBefore, Admissible, UninterruptedOn;
  }

  /** Requests minus decisions in the trail is the number of undecided approvals: none or one. */
  lemma OpenRequestsAreUndecided(history: seq<Attempt>, r: string)
    requires Admissible(EMPTY, history) && UninterruptedOn(EMPTY, history, r)
    ensures var v := ViewOf(After(EMPTY, history), r);
            Requests(v.auditEvents) - Decisions(v.auditEvents) == UndecidedCount(v.approvals) <= 1
  {
    ReachableIsEvident(history, r);
    ReachableIsGated(history, r);
    AtMostOneUndecided(ViewOf(After(EMPTY, history), r).approvals);
  }

  // ---------------------------------------------------------------- what stopping early costs

  function NewStatus(op: Operation): RunStatus
    requires IsTransition(op)
  {
    match op
    case Resume(_, _, _) => Running
    case Interrupt(_, _, _) => Interrupted
    case Retry(_, _, _) => Pending
    case Cancel(_, _, _) => Canceled
  }

  lemma StagedTransition(v: RunView, r: string, c: Call, n: nat)
    requires Evident(v) && v.run.Some? && v.run.value.id == r && IsTransition(c.op) && c.op.runId == r
    requires PlanOnRun(v.run.value, v.approvals, c).Success? && 0 < n < 3
    ensures var after := ApplyViewAll(v, r, PlanOnRun(v.run.value, v.approvals, c).value[..n]);
            Replay(after.auditEvents) == Stored(after) <==> v.run.value.status == NewStatus(c.op)
  {
    Stages(v, r, PlanOnRun(v.run.value, v.approvals, c).value, n);
    hide Replay;
  }

  lemma StagedRequest(v: RunView, r: string, c: Call, n: nat)
    requires Evident(v) && v.run.Some? && v.run.value.id == r && c.op.RequestApproval? && c.op.runId == r
    requires PlanRequest(v.run.value, v.approvals, c).Success? && 0 < n < 3
    ensures var after := ApplyViewAll(v, r, PlanRequest(v.run.value, v.approvals, c).value[..n]);
            Replay(after.auditEvents) != Stored(after)
  {
    var ws := PlanRequest(v.run.value, v.approvals, c).value;
    Stages(v, r, ws, n);
    ReplayAppend(v.auditEvents, ws[1].event);
    hide Replay, DistinctIds, ReportedStates, Requests, Decisions;
    var after := ApplyViewAll(v, r, ws[..n]);
    assert |Replay(after.auditEvents).approvals| == |v.approvals| < |Stored(after).approvals|;
  }

  lemma StagedDecision(v: RunView, r: string, c: Call)
    requires Gated(v, r) && Evident(v) && c.op.DecideApproval? && PlanView(v, c).Success?
    ensures var after := ApplyViewAll(v, r, PlanView(v, c).value[..1]);
            Replay(after.auditEvents) != Stored(after)
  {
    var ws := PlanView(v, c).value;
    Stages(v, r, ws, 1);
    DecisionFindsLast(v.approvals, c.op.approvalId);
    var after := ApplyView(v, r, ws[0]);
    var last := |v.approvals| - 1;
    assert Stored(after).approvals[last].status != Stored(v).approvals[last].status;
    hide Replay, ReportedStates, Requests, Decisions;
  }

  /**
   A call stopped after `n` transactions leaves a trail that still reconstructs the run exactly
   when it committed nothing or everything, or was a transition into the status the run had.
   */
  lemma StoppedCallKeepsReplayIff(v: RunView, r: string, c: Call, n: nat)
    requires Gated(v, r) && Evident(v) && Aims(v, r, c) && FreshFor(v, r, c)
    requires PlanView(v, c).Success? && n <= |WritesView(v, c)|
    ensures var after := ApplyViewAll(v, r, WritesView(v, c)[..n]);
            Replay(after.auditEvents) == Stored(after) <==>
              (n == 0 || n == |WritesView(v, c)| || (IsTransition(c.op) && v.run.value.status == NewStatus(c.op)))
  {
    var ws := WritesView(v, c);
    if n == |ws| {
      assert ws[..n] == ws;
      CallKeepsEvident(v, r, c);
    } else if n > 0 {
      if c.op.Create? {
        Stages(v, r, ws, n);
      } else if c.op.DecideApproval? {
        StagedDecision(v, r, c);
      } else if c.op.RequestApproval? {
        StagedRequest(v, r, c, n);
      } else {
        StagedTransition(v, r, c, n);
      }
    }
  }
}
