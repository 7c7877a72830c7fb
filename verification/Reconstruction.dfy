/**
 Replay under early stops: for every history, in which any call may stop after any of its
 transactions, exactly when the trail still gives back the run and its checkpoints.
 */
module Reconstruction {
  import opened Text
  import opened Records
  import opened Store
  import opened Lifecycle
  import opened Histories
  import opened RunViews
  import opened Gating
  import opened Reachability
  import opened Evidence

  // ---------------------------------------------------------------- what a history leaves unsaid

  /** The status an operation writes with its first transaction. */
  function SetStatus(op: Operation): Option<RunStatus> {
    match op
    case Create(_, _, _, _) => Some(Pending)
    case RequestApproval(_, _, _, _) => Some(WaitingApproval)
    case DecideApproval(_, _, _, _, _) => None
    case Record(_, _, _, _, _) => None
    case _ => Some(NewStatus(op))
  }

  /** The number of transactions after which the trail tells that status. */
  function AnnouncedAfter(op: Operation): nat {
    if op.RequestApproval? then 2 else 3
  }

  /**
   What the calls on a run amount to: the last status written and the last one announced; how many
   requests, decisions and checkpoints never reached the trail; whether the last request did, and
   what the trail told last about the last request it has; and whether every resume in the trail
   was called where the trail, too, allowed it and told the run's status.
   */
  datatype Account = Account(
    written: Option<RunStatus>, announced: Option<RunStatus>,
    untoldRequests: nat, untoldDecisions: nat, untoldCheckpoints: nat,
    lastRequestTold: bool, lastTold: Option<ApprovalStatus>, resumesTold: bool)

  const NOTHING := Account(None, None, 0, 0, 0, true, None, true)

  predicate ApprovalsTold(acc: Account) {
    acc.untoldRequests == 0 && acc.untoldDecisions == 0
  }

  /** The trail alone would have allowed a resume, and with the stored status. */
  predicate TellsResumable(acc: Account) {
    acc.written == acc.announced && (acc.lastTold.None? || acc.lastTold == Some(Approved))
  }

  function Told(op: Operation, n: nat, acc: Account): Option<ApprovalStatus> {
    match op
    case RequestApproval(_, _, _, _) => if n == 3 then Some(Undecided) else acc.lastTold
    case DecideApproval(_, _, _, approve, _) =>
      if n == 2 && acc.lastRequestTold then Some(if approve then Approved else Denied) else acc.lastTold
    case _ => acc.lastTold
  }

  /** A call on the run that committed `n` of its `planned` transactions. */
  function Note(acc: Account, op: Operation, n: nat, planned: nat): Account {
    var cut := if 0 < n < planned then 1 else 0;
    Account(
      if SetStatus(op).Some? && n > 0 then SetStatus(op) else acc.written,
      if SetStatus(op).Some? && n >= AnnouncedAfter(op) then SetStatus(op) else acc.announced,
      acc.untoldRequests + if op.RequestApproval? then cut else 0,
      acc.untoldDecisions + if op.DecideApproval? then cut else 0,
      acc.untoldCheckpoints + if (op.Create? || IsTransition(op)) && n == 2 then 1 else 0,
      if op.RequestApproval? && n > 0 then n == 3 else acc.lastRequestTold,
      Told(op, n, acc),
      acc.resumesTold && (op.Resume? && n == 3 ==> TellsResumable(acc)))
  }

  function AccountOf(history: seq<Attempt>, r: string): Account {
    if history == [] then NOTHING
    else
      var front, last := history[..|history| - 1], history[|history| - 1];
      var s, acc := After(EMPTY, front), AccountOf(front, r);
      if Target(s, last.call) == Some(r) then
        Note(acc, last.call.op, |Committed(s, last)|, |Writes(s, last.call)|)
      else acc
  }

  // ---------------------------------------------------------------- the trail against the account

  function StatusOf(v: RunView): Option<RunStatus> {
    if v.run.Some? then Some(v.run.value.status) else None
  }

  /** An approval is missing from the replayed ones, or its decision is. */
  predicate Diverged(told: seq<Seen>, rows: seq<Approval>) {
    && |told| <= |rows|
    && (|told| < |rows| ||
        exists i :: 0 <= i < |told| && DecisionMissing(told[i], rows[i]))
  }

  predicate DecisionMissing(told: Seen, row: Approval) {
    told.id == row.id && told.status == Undecided && row.status != Undecided
  }

  predicate ApprovalsAgree(told: seq<Seen>, rows: seq<Approval>, acc: Account) {
    if ApprovalsTold(acc) then told == StoredRows(rows) else Diverged(told, rows)
  }

  predicate CheckpointsAgree(told: seq<CheckpointState>, states: seq<CheckpointState>, acc: Account) {
    |told| + acc.untoldCheckpoints == |states| && (acc.untoldCheckpoints == 0 ==> told == states)
  }

  predicate Tallies(v: RunView, acc: Account) {
    && StatusOf(v) == acc.written
    && Replay(v.auditEvents).status == acc.announced
    && ApprovalsAgree(Replay(v.auditEvents).approvals, v.approvals, acc)
    && CheckpointsAgree(ReportedStates(v.auditEvents), States(v.checkpoints), acc)
  }

  lemma DivergedIsWrong(told: seq<Seen>, rows: seq<Approval>)
    requires Diverged(told, rows)
    ensures told != StoredRows(rows)
  {
  }

  // ---------------------------------------------------------------- calls, cut anywhere

  lemma StatesAppend(checkpoints: seq<Checkpoint>, c: Checkpoint)
    ensures States(checkpoints + [c]) == States(checkpoints) + [c.state]
  {
  }

  /** Status, checkpoint, event: the shape shared by create and the transitions. */
  lemma ReportTallies(v: RunView, v1: RunView, c: Checkpoint, e: AuditEvent, acc: Account, op: Operation)
    requires Tallies(v, acc) && v1 == v.(run := v1.run) && v1.run.Some? && (op.Create? || IsTransition(op))
    requires SetStatus(op) == StatusOf(v1)
    requires Reported(e.body) == Some(c.state) && Announces(e.body, v1.run.value.status)
    ensures Tallies(v, Note(acc, op, 0, 3)) && Tallies(v1, Note(acc, op, 1, 3))
    ensures var v2 := v1.(checkpoints := v1.checkpoints + [c]);
            && Tallies(v2, Note(acc, op, 2, 3))
            && Tallies(v2.(auditEvents := v2.auditEvents + [e]), Note(acc, op, 3, 3))
  {
    ReplayAppend(v.auditEvents, e);
    ReportedStatesAppend(v.auditEvents, e);
    StatesAppend(v.checkpoints, c);
    hide Replay, ReportedStates, States, Diverged;
  }

  lemma TransitionTallies(
    v: RunView, r: string, c: Call, acc: Account, status: RunStatus, state: CheckpointState, body: EventBody, n: nat)
    requires Tallies(v, acc) && v.run.Some? && v.run.value.id == r && IsTransition(c.op) && c.op.runId == r && n <= 3
    requires NewStatus(c.op) == status && Reported(body) == Some(state) && Announces(body, status)
    ensures Tallies(ApplyViewAll(v, r, Transition(v.run.value, c, status, state, body).value[..n]),
                    Note(acc, c.op, n, 3))
  {
    hide Tallies, Note;
    var ws := Transition(v.run.value, c, status, state, body).value;
    Stages(v, r, ws, n);
    ReportTallies(v, ApplyView(v, r, ws[0]), ws[1].checkpoint, ws[2].event, acc, c.op);
  }

  lemma TransitionsTally(v: RunView, r: string, c: Call, acc: Account, n: nat)
    requires Tallies(v, acc) && v.run.Some? && v.run.value.id == r && IsTransition(c.op) && c.op.runId == r
    requires PlanOnRun(v.run.value, v.approvals, c).Success? && n <= 3
    ensures Tallies(ApplyViewAll(v, r, PlanOnRun(v.run.value, v.approvals, c).value[..n]), Note(acc, c.op, n, 3))
  {
    hide Tallies, Note;
    var run, reason := v.run.value, c.op.reason;
    match c.op
    case Resume(_, _, _) =>
      TransitionTallies(v, r, c, acc, Running, ResumeState(run.status, reason), RunResumed(reason, run.status), n);
    case Interrupt(_, _, _) =>
      TransitionTallies(v, r, c, acc, Interrupted, InterruptedState(reason), RunInterrupted(reason), n);
    case Retry(_, _, _) =>
      TransitionTallies(v, r, c, acc, Pending, RetriedState(reason), RunRetried(reason), n);
    case Cancel(_, _, _) =>
      TransitionTallies(v, r, c, acc, Canceled, CanceledState(reason), RunCanceled(reason), n);
  }

  lemma CreateTallies(r: string, c: Call, acc: Account, n: nat)
    requires Tallies(NO_RUN, acc) && c.op.Create? && c.d0.id == r && n <= 3
    ensures Tallies(ApplyViewAll(NO_RUN, r, PlanCreate(c).value[..n]), Note(acc, c.op, n, 3))
  {
    hide Tallies, Note;
    var ws := PlanCreate(c).value;
    Stages(NO_RUN, r, ws, n);
    ReportTallies(NO_RUN, ApplyView(NO_RUN, r, ws[0]), ws[1].checkpoint, ws[2].event, acc, c.op);
  }

  lemma RequestAgrees(told: seq<Seen>, rows: seq<Approval>, a: Approval, seen: Seen, acc: Account, op: Operation)
    requires ApprovalsAgree(told, rows, acc) && op.RequestApproval? && seen == AsSeen(a)
    ensures ApprovalsAgree(told, rows, Note(acc, op, 0, 3))
    ensures ApprovalsAgree(told, rows + [a], Note(acc, op, 1, 3))
    ensures ApprovalsAgree(told, rows + [a], Note(acc, op, 2, 3))
    ensures ApprovalsAgree(told + [seen], rows + [a], Note(acc, op, 3, 3))
  {
    if ApprovalsTold(acc) {
      assert StoredRows(rows + [a]) == StoredRows(rows) + [seen];
    } else if |told| == |rows| {
      var i :| 0 <= i < |told| && DecisionMissing(told[i], rows[i]);
      assert DecisionMissing((told + [seen])[i], (rows + [a])[i]);
    }
  }

  lemma RequestTallies(v: RunView, r: string, c: Call, acc: Account, n: nat)
    requires Tallies(v, acc) && v.run.Some? && v.run.value.id == r && c.op.RequestApproval? && c.op.runId == r
    requires PlanRequest(v.run.value, v.approvals, c).Success? && n <= 3
    ensures Tallies(ApplyViewAll(v, r, PlanRequest(v.run.value, v.approvals, c).value[..n]), Note(acc, c.op, n, 3))
  {
    hide Replay, ReportedStates, States, ApprovalsAgree, DistinctIds, ResumeDenial, FindApproval;
    var ws := PlanRequest(v.run.value, v.approvals, c).value;
    var a, e1, e2 := ws[0].approval, ws[1].event, ws[2].event;
    var trail := v.auditEvents;
    Stages(v, r, ws, n);
    ReplayAppend(trail, e1);
    ReplayAppend(trail + [e1], e2);
    ReportedStatesAppend(trail, e1);
    ReportedStatesAppend(trail + [e1], e2);
    hide ApplyViewAll;
    RequestAgrees(Replay(trail).approvals, v.approvals, a, AsSeen(a), acc, c.op);
  }

  lemma DecisionAgrees(
    told: seq<Seen>, rows: seq<Approval>, acc: Account, op: Operation,
    id: string, decider: string, decision: ApprovalStatus, reason: string, at: string)
    requires ApprovalsAgree(told, rows, acc) && op.DecideApproval? && DistinctIds(rows) && OnlyLastUndecided(rows)
    requires FindApproval(rows, id).Some? && FindApproval(rows, id).value.status == Undecided && decision != Undecided
    ensures var decided := DecideRows(rows, id, decider, decision, reason, at);
            && ApprovalsAgree(told, rows, Note(acc, op, 0, 2))
            && ApprovalsAgree(told, decided, Note(acc, op, 1, 2))
            && ApprovalsAgree(SeeDecision(told, id, decision, reason, Some(decider)), decided, Note(acc, op, 2, 2))
  {
    var decided := DecideRows(rows, id, decider, decision, reason, at);
    var seen := SeeDecision(told, id, decision, reason, Some(decider));
    DecisionFindsLast(rows, id);
    hide DistinctIds, OnlyLastUndecided, FindApproval;
    if ApprovalsTold(acc) {
      assert DecisionMissing(told[|rows| - 1], decided[|rows| - 1]);
      assert seen == StoredRows(decided);
    } else if |told| == |rows| {
      var i :| 0 <= i < |told| && DecisionMissing(told[i], rows[i]);
      assert DecisionMissing(told[i], decided[i]) && DecisionMissing(seen[i], decided[i]);
    }
  }

  lemma DecisionTallies(v: RunView, r: string, c: Call, acc: Account, n: nat)
    requires Gated(v, r) && Tallies(v, acc) && c.op.DecideApproval? && Aims(v, r, c)
    requires PlanView(v, c).Success? && n <= 2
    ensures Tallies(ApplyViewAll(v, r, PlanView(v, c).value[..n]), Note(acc, c.op, n, 2))
  {
    hide Replay, ReportedStates, States, ApprovalsAgree, TrailBacked, Subsequence;
    var ws := PlanView(v, c).value;
    var w, e := ws[0], ws[1].event;
    Stages(v, r, ws, n);
    FindApprovalHasId(v.approvals, w.approvalId);
    ReplayAppend(v.auditEvents, e);
    ReportedStatesAppend(v.auditEvents, e);
    hide ApplyViewAll;
    DecisionAgrees(Replay(v.auditEvents).approvals, v.approvals, acc, c.op,
                   w.approvalId, w.decider, w.decision, w.reason, w.at);
    hide DistinctIds, OnlyLastUndecided, FindApproval;
  }

  lemma RecordTallies(v: RunView, r: string, c: Call, acc: Account, n: nat)
    requires Tallies(v, acc) && c.op.Record? && Aims(v, r, c) && n <= 1
    ensures Tallies(ApplyViewAll(v, r, WritesView(v, c)[..n]), Note(acc, c.op, n, 1))
  {
    hide Replay, ReportedStates, States, ApprovalsAgree, CheckpointsAgree;
    var ws := WritesView(v, c);
    Stages(v, r, ws, n);
    ReplayAppend(v.auditEvents, ws[0].event);
    ReportedStatesAppend(v.auditEvents, ws[0].event);
    assert ReportedStates(v.auditEvents + [ws[0].event]) == ReportedStates(v.auditEvents);
    hide ApplyViewAll;
  }

  lemma CallTallies(v: RunView, r: string, a: Attempt, acc: Account)
    requires Gated(v, r) && Tallies(v, acc) && Aims(v, r, a.call) && FreshFor(v, r, a.call)
    ensures var ws := WritesView(v, a.call);
            Tallies(ExecView(v, r, a), Note(acc, a.call.op, |Prefix(ws, a.committed)|, |ws|))
  {
    hide Tallies;
    var c := a.call;
    var ws := WritesView(v, c);
    var n := if a.committed < |ws| then a.committed else |ws|;
    assert Prefix(ws, a.committed) == ws[..n];
    if c.op.Create? {
      CreateTallies(r, c, acc, n);
    } else if c.op.Record? {
      RecordTallies(v, r, c, acc, n);
    } else if PlanView(v, c).Success? {
      if c.op.DecideApproval? {
        DecisionTallies(v, r, c, acc, n);
      } else if c.op.RequestApproval? {
        RequestTallies(v, r, c, acc, n);
      } else {
        TransitionsTally(v, r, c, acc, n);
      }
    } else {
      assert Note(acc, c.op, 0, 0) == acc;
    }
    hide Note, Transition;
  }

  // ---------------------------------------------------------------- every history

  lemma ExecTallies(s: Store, a: Attempt, r: string, acc: Account)
    requires Sound(s) && WellFormed(a.call) && AdmitsAll(s, Committed(s, a))
    requires Gated(ViewOf(s, r), r) && Tallies(ViewOf(s, r), acc)
    ensures Tallies(ViewOf(Exec(s, a), r),
                    if Target(s, a.call) != Some(r) then acc
                    else Note(acc, a.call.op, |Committed(s, a)|, |Writes(s, a.call)|))
  {
    hide Gated, Tallies, ViewOf, Plan, PlanView;
    if Committed(s, a) != [] {
      CallActsOnOneRun(s, a, r);
      if Target(s, a.call) == Some(r) {
        CommittedIsFresh(s, a, r);
        CallTallies(ViewOf(s, r), r, a, acc);
      }
    } else {
      assert Note(acc, a.call.op, 0, |Writes(s, a.call)|) == acc;
    }
    hide Note;
  }

  lemma {:induction false} HistoryTallies(history: seq<Attempt>, r: string)
    requires Admissible(EMPTY, history)
    ensures Tallies(ViewOf(After(EMPTY, history), r), AccountOf(history, r))
  {
    if history != [] {
      var front, last := history[..|history| - 1], history[|history| - 1];
      HistoryTallies(front, r);
      ReachableIsGated(front, r);
      ReachableIsSound(front);
      hide Gated, Tallies, ViewOf, Note, AdmitsAll;
      ExecTallies(After(EMPTY, front), last, r, AccountOf(front, r));
    } else {
      assert ViewOf(EMPTY, r) == NO_RUN;
    }
  }

  /**
   Whatever stopped early, the trail reconstructs the run exactly when no request or decision on
   it was cut and the last status written is the last one announced.
   */
  lemma TrailReconstructsRunIff(history: seq<Attempt>, r: string)
    requires Admissible(EMPTY, history)
    ensures var v, acc := ViewOf(After(EMPTY, history), r), AccountOf(history, r);
            Replay(v.auditEvents) == Stored(v) <==> ApprovalsTold(acc) && acc.written == acc.announced
  {
    HistoryTallies(history, r);
    var v, acc := ViewOf(After(EMPTY, history), r), AccountOf(history, r);
    hide ViewOf, AccountOf, After, Admissible, Replay, Diverged;
    if !ApprovalsTold(acc) {
      DivergedIsWrong(Replay(v.auditEvents).approvals, v.approvals);
    }
  }

  /** The trail misses one checkpoint for each call that stopped between checkpoint and event. */
  lemma TrailReportsCheckpointsIff(history: seq<Attempt>, r: string)
    requires Admissible(EMPTY, history)
    ensures var v, untold := ViewOf(After(EMPTY, history), r), AccountOf(history, r).untoldCheckpoints;
            && |ReportedStates(v.auditEvents)| + untold == |v.checkpoints|
            && (ReportedStates(v.auditEvents) == States(v.checkpoints) <==> untold == 0)
  {
    HistoryTallies(history, r);
    hide ViewOf, AccountOf, After, Admissible, Replay, ReportedStates;
  }
}
