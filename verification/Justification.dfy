/**
 Resumes and approvals in the trail under early stops: for every history, exactly when the trail
 before each resume allowed it, and how far requests and decisions are from balancing.
 */
module Justification {
  import opened Text
  import opened Records
  import opened Store
  import opened Lifecycle
  import opened Histories
  import opened RunViews
  import opened Gating
  import opened Reachability
  import opened Evidence
  import opened Reconstruction

  // ---------------------------------------------------------------- the trail against the account

  /** Requests and decisions in the trail, with the untold ones, leave the undecided approvals. */
  predicate Balanced(trail: seq<AuditEvent>, rows: seq<Approval>, acc: Account) {
    Requests(trail) + acc.untoldRequests == Decisions(trail) + acc.untoldDecisions + UndecidedCount(rows)
  }

  predicate HasId(rows: seq<Approval>, id: string) {
    exists k :: 0 <= k < |rows| && rows[k].id == id
  }

  function LastStatus(told: seq<Seen>): Option<ApprovalStatus> {
    if told == [] then None else Some(told[|told| - 1].status)
  }

  /** The replayed approvals are stored ones, and the last of them is what the account says. */
  predicate LastKnown(told: seq<Seen>, rows: seq<Approval>, acc: Account) {
    && (forall i | 0 <= i < |told| :: HasId(rows, told[i].id))
    && LastStatus(told) == acc.lastTold
    && (rows != [] && acc.lastRequestTold ==> told != [] && told[|told| - 1].id == rows[|rows| - 1].id)
    && (rows != [] && !acc.lastRequestTold ==> forall i | 0 <= i < |told| :: told[i].id != rows[|rows| - 1].id)
  }

  predicate Weighs(trail: seq<AuditEvent>, rows: seq<Approval>, acc: Account) {
    && Balanced(trail, rows, acc)
    && LastKnown(Replay(trail).approvals, rows, acc)
    && (ResumesJustified(trail) <==> acc.resumesTold)
  }

  lemma ResumesJustifiedSnoc(trail: seq<AuditEvent>, e: AuditEvent)
    ensures ResumesJustified(trail + [e]) <==> ResumesJustified(trail) && Justifies(Replay(trail), e)
  {
    hide Justifies;
    var t := trail + [e];
    assert t[..|trail|] == trail && t[|trail|] == e;
    if ResumesJustified(t) {
      forall i | 0 <= i < |trail| ensures Justifies(Replay(trail[..i]), trail[i]) {
        assert t[..i] == trail[..i] && t[i] == trail[i];
      }
    } else if ResumesJustified(trail) {
      ResumesJustifiedIfLast(trail, e);
    }
  }

  lemma ResumesJustifiedIfLast(trail: seq<AuditEvent>, e: AuditEvent)
    requires ResumesJustified(trail) && !ResumesJustified(trail + [e])
    ensures !Justifies(Replay(trail), e)
  {
    if Justifies(Replay(trail), e) {
      ResumesJustifiedAppend(trail, e);
    }
  }

  // ---------------------------------------------------------------- events

  /** An event that is about no approval, and a resume only where the account notes one. */
  lemma EventWeighs(trail: seq<AuditEvent>, rows: seq<Approval>, e: AuditEvent, acc: Account, after: Account)
    requires Weighs(trail, rows, acc) && !IsApprovalEvent(e)
    requires after == acc.(written := after.written, announced := after.announced,
                           untoldCheckpoints := after.untoldCheckpoints, resumesTold := after.resumesTold)
    requires after.resumesTold <==> acc.resumesTold && Justifies(Replay(trail), e)
    ensures Weighs(trail + [e], rows, after)
  {
    hide Replay, Requests, Decisions, ResumesJustified, Justifies, HasId, UndecidedCount;
    ReplayAppend(trail, e);
    CountsAppend(trail, e);
    ResumesJustifiedSnoc(trail, e);
  }

  lemma ResumeJustifiedIff(trail: seq<AuditEvent>, rows: seq<Approval>, e: AuditEvent, acc: Account)
    requires Weighs(trail, rows, acc) && Replay(trail).status == acc.announced
    requires e.body.RunResumed? && acc.written == Some(e.body.fromStatus)
    ensures Justifies(Replay(trail), e) <==> TellsResumable(acc)
  {
    hide Replay, Balanced, ResumesJustified;
  }

  lemma RequestWeighs(
    trail: seq<AuditEvent>, rows: seq<Approval>, a: Approval, e1: AuditEvent, e2: AuditEvent,
    acc: Account, op: Operation)
    requires Weighs(trail, rows, acc) && op.RequestApproval? && a.status == Undecided && !HasId(rows, a.id)
    requires e1.body.RunWaitingApproval? && e2.body.ApprovalRequested? && e2.body.approvalId == a.id
    ensures Weighs(trail, rows + [a], Note(acc, op, 1, 3))
    ensures Weighs(trail + [e1], rows + [a], Note(acc, op, 2, 3))
    ensures Weighs(trail + [e1] + [e2], rows + [a], Note(acc, op, 3, 3))
  {
    hide Replay, Requests, Decisions, ResumesJustified, UndecidedCount, LastKnown;
    UndecidedCountAppend(rows, a);
    ReplayAppend(trail, e1);
    ReplayAppend(trail + [e1], e2);
    CountsAppend(trail, e1);
    CountsAppend(trail + [e1], e2);
    ResumesJustifiedSnoc(trail, e1);
    ResumesJustifiedSnoc(trail + [e1], e2);
    RequestLastKnown(Replay(trail).approvals, rows, a, Replay(trail + [e1] + [e2]).approvals, acc, op);
  }

  lemma RequestLastKnown(
    told: seq<Seen>, rows: seq<Approval>, a: Approval, later: seq<Seen>, acc: Account, op: Operation)
    requires LastKnown(told, rows, acc) && op.RequestApproval? && !HasId(rows, a.id)
    requires |later| == |told| + 1 && later[..|told|] == told
    requires later[|told|].id == a.id && later[|told|].status == Undecided
    ensures LastKnown(told, rows + [a], Note(acc, op, 1, 3)) && LastKnown(told, rows + [a], Note(acc, op, 2, 3))
    ensures LastKnown(later, rows + [a], Note(acc, op, 3, 3))
  {
    var more := rows + [a];
    assert more[|rows|] == a;
    forall i | 0 <= i < |told| ensures HasId(more, told[i].id) && told[i].id != a.id && later[i] == told[i] {
      var k :| 0 <= k < |rows| && rows[k].id == told[i].id;
      assert more[k] == rows[k];
      assert later[i] == later[..|told|][i];
    }
    assert HasId(more, a.id);
    hide HasId;
  }

  lemma DecisionWeighs(
    trail: seq<AuditEvent>, rows: seq<Approval>, e: AuditEvent, acc: Account, op: Operation,
    id: string, decider: string, decision: ApprovalStatus, reason: string, at: string)
    requires Weighs(trail, rows, acc) && DistinctIds(rows) && OnlyLastUndecided(rows)
    requires op.DecideApproval? && decision == if op.approve then Approved else Denied
    requires FindApproval(rows, id).Some? && FindApproval(rows, id).value.status == Undecided
    requires e.body == ApprovalDecided(id, decision, reason)
    ensures var decided := DecideRows(rows, id, decider, decision, reason, at);
            Weighs(trail, decided, Note(acc, op, 1, 2)) && Weighs(trail + [e], decided, Note(acc, op, 2, 2))
  {
    hide Replay, Requests, Decisions, ResumesJustified, UndecidedCount, LastKnown;
    hide DistinctIds, OnlyLastUndecided, FindApproval;
    var decided := DecideRows(rows, id, decider, decision, reason, at);
    DecisionCounts(rows, id, decider, decision, reason, at);
    ReplayAppend(trail, e);
    CountsAppend(trail, e);
    ResumesJustifiedSnoc(trail, e);
    DecisionLastKnown(Replay(trail).approvals, rows, decided, Replay(trail + [e]).approvals, acc, op, id);
  }

  lemma DecisionLastKnown(
    told: seq<Seen>, rows: seq<Approval>, decided: seq<Approval>, later: seq<Seen>,
    acc: Account, op: Operation, id: string)
    requires LastKnown(told, rows, acc) && op.DecideApproval? && rows != [] && rows[|rows| - 1].id == id
    requires |decided| == |rows| && forall k | 0 <= k < |rows| :: decided[k].id == rows[k].id
    requires |later| == |told| && forall i | 0 <= i < |told| ::
               && later[i].id == told[i].id
               && later[i].status ==
                    if told[i].id != id then told[i].status else if op.approve then Approved else Denied
    ensures LastKnown(told, decided, Note(acc, op, 1, 2)) && LastKnown(later, decided, Note(acc, op, 2, 2))
  {
    forall i | 0 <= i < |told| ensures HasId(decided, told[i].id) {
      var k :| 0 <= k < |rows| && rows[k].id == told[i].id;
      assert decided[k].id == told[i].id;
    }
    hide HasId;
  }

  // ---------------------------------------------------------------- calls, cut anywhere

  predicate ViewWeighs(v: RunView, acc: Account) {
    Weighs(v.auditEvents, v.approvals, acc)
  }

  lemma ReportedWeighs(v: RunView, after: RunView, e: AuditEvent, acc: Account, op: Operation, n: nat)
    requires Tallies(v, acc) && ViewWeighs(v, acc) && (op.Create? || IsTransition(op)) && n <= 3
    requires after.approvals == v.approvals
    requires after.auditEvents == if n == 3 then v.auditEvents + [e] else v.auditEvents
    requires Reported(e.body).Some? && (e.body.RunResumed? <==> op.Resume?)
    requires e.body.RunResumed? ==> StatusOf(v) == Some(e.body.fromStatus)
    ensures ViewWeighs(after, Note(acc, op, n, 3))
  {
    hide Replay, Requests, Decisions, ResumesJustified, UndecidedCount, LastKnown, Justifies, TellsResumable;
    if n == 3 {
      NoResumeNeedsNothing(Replay(v.auditEvents), e);
      if op.Resume? {
        ResumeJustifiedIff(v.auditEvents, v.approvals, e, acc);
      }
      EventWeighs(v.auditEvents, v.approvals, e, acc, Note(acc, op, n, 3));
    } else {
      StoppedWeighs(v.auditEvents, v.approvals, acc, Note(acc, op, n, 3));
    }
  }

  lemma NoResumeNeedsNothing(p: Replayed, e: AuditEvent)
    ensures !e.body.RunResumed? ==> Justifies(p, e)
  {
  }

  lemma StoppedWeighs(trail: seq<AuditEvent>, rows: seq<Approval>, acc: Account, after: Account)
    requires Weighs(trail, rows, acc)
    requires after == acc.(written := after.written, announced := after.announced,
                           untoldCheckpoints := after.untoldCheckpoints)
    ensures Weighs(trail, rows, after)
  {
    hide Replay, Requests, Decisions, ResumesJustified, UndecidedCount;
  }

  lemma TransitionsWeigh(v: RunView, r: string, c: Call, acc: Account, n: nat)
    requires Tallies(v, acc) && ViewWeighs(v, acc) && v.run.Some? && v.run.value.id == r
    requires IsTransition(c.op) && c.op.runId == r && PlanOnRun(v.run.value, v.approvals, c).Success? && n <= 3
    ensures ViewWeighs(ApplyViewAll(v, r, PlanOnRun(v.run.value, v.approvals, c).value[..n]), Note(acc, c.op, n, 3))
  {
    hide Tallies, ViewWeighs, Note, ResumeDenial;
    var ws := PlanOnRun(v.run.value, v.approvals, c).value;
    Stages(v, r, ws, n);
    ReportedWeighs(v, ApplyViewAll(v, r, ws[..n]), ws[2].event, acc, c.op, n);
  }

  lemma CreateWeighs(r: string, c: Call, acc: Account, n: nat)
    requires Tallies(NO_RUN, acc) && ViewWeighs(NO_RUN, acc) && c.op.Create? && c.d0.id == r && n <= 3
    ensures ViewWeighs(ApplyViewAll(NO_RUN, r, PlanCreate(c).value[..n]), Note(acc, c.op, n, 3))
  {
    hide Tallies, ViewWeighs, Note;
    var ws := PlanCreate(c).value;
    Stages(NO_RUN, r, ws, n);
    ReportedWeighs(NO_RUN, ApplyViewAll(NO_RUN, r, ws[..n]), ws[2].event, acc, c.op, n);
  }

  lemma RequestCallWeighs(v: RunView, r: string, c: Call, acc: Account, n: nat)
    requires ViewWeighs(v, acc) && v.run.Some? && v.run.value.id == r && FreshFor(v, r, c)
    requires c.op.RequestApproval? && c.op.runId == r && PlanRequest(v.run.value, v.approvals, c).Success? && n <= 3
    ensures ViewWeighs(ApplyViewAll(v, r, PlanRequest(v.run.value, v.approvals, c).value[..n]), Note(acc, c.op, n, 3))
  {
    hide Weighs, ResumeDenial;
    var ws := PlanRequest(v.run.value, v.approvals, c).value;
    Stages(v, r, ws, n);
    RequestWeighs(v.auditEvents, v.approvals, ws[0].approval, ws[1].event, ws[2].event, acc, c.op);
    assert Note(acc, c.op, 0, 3) == acc;
    hide Note, HasId;
  }

  lemma DecisionCallWeighs(v: RunView, r: string, c: Call, acc: Account, n: nat)
    requires Gated(v, r) && ViewWeighs(v, acc) && c.op.DecideApproval? && Aims(v, r, c)
    requires PlanView(v, c).Success? && n <= 2
    ensures ViewWeighs(ApplyViewAll(v, r, PlanView(v, c).value[..n]), Note(acc, c.op, n, 2))
  {
    hide Weighs, TrailBacked, Subsequence, ReportedStates, States, StatusFits;
    var ws := PlanView(v, c).value;
    var w, e := ws[0], ws[1].event;
    Stages(v, r, ws, n);
    FindApprovalHasId(v.approvals, w.approvalId);
    DecisionWeighs(v.auditEvents, v.approvals, e, acc, c.op, w.approvalId, w.decider, w.decision, w.reason, w.at);
    assert Note(acc, c.op, 0, 2) == acc;
    hide Note, DistinctIds, OnlyLastUndecided, FindApproval;
  }

  lemma RecordWeighs(v: RunView, r: string, c: Call, acc: Account, n: nat)
    requires ViewWeighs(v, acc) && c.op.Record? && Aims(v, r, c) && n <= 1
    ensures ViewWeighs(ApplyViewAll(v, r, WritesView(v, c)[..n]), Note(acc, c.op, n, 1))
  {
    hide Weighs;
    var ws := WritesView(v, c);
    Stages(v, r, ws, n);
    EventWeighs(v.auditEvents, v.approvals, ws[0].event, acc, acc);
    assert Note(acc, c.op, n, 1) == acc;
    hide Note;
  }

  lemma CallWeighs(v: RunView, r: string, a: Attempt, acc: Account)
    requires Gated(v, r) && Tallies(v, acc) && ViewWeighs(v, acc) && Aims(v, r, a.call) && FreshFor(v, r, a.call)
    ensures var ws := WritesView(v, a.call);
            ViewWeighs(ExecView(v, r, a), Note(acc, a.call.op, |Prefix(ws, a.committed)|, |ws|))
  {
    hide Tallies, ViewWeighs;
    var c := a.call;
    var ws := WritesView(v, c);
    var n := if a.committed < |ws| then a.committed else |ws|;
    assert Prefix(ws, a.committed) == ws[..n];
    if c.op.Create? {
      CreateWeighs(r, c, acc, n);
    } else if c.op.Record? {
      RecordWeighs(v, r, c, acc, n);
    } else if PlanView(v, c).Success? {
      if c.op.DecideApproval? {
        DecisionCallWeighs(v, r, c, acc, n);
      } else if c.op.RequestApproval? {
        RequestCallWeighs(v, r, c, acc, n);
      } else {
        TransitionsWeigh(v, r, c, acc, n);
      }
    } else {
      assert Note(acc, c.op, 0, 0) == acc;
    }
    hide Note, Transition;
  }

  // ---------------------------------------------------------------- every history

  lemma ExecWeighs(s: Store, a: Attempt, r: string, acc: Account)
    requires Sound(s) && WellFormed(a.call) && AdmitsAll(s, Committed(s, a))
    requires Gated(ViewOf(s, r), r) && Tallies(ViewOf(s, r), acc) && ViewWeighs(ViewOf(s, r), acc)
    ensures ViewWeighs(ViewOf(Exec(s, a), r),
                       if Target(s, a.call) != Some(r) then acc
                       else Note(acc, a.call.op, |Committed(s, a)|, |Writes(s, a.call)|))
  {
    hide Gated, Tallies, ViewWeighs, ViewOf, Plan, PlanView;
    if Committed(s, a) != [] {
      CallActsOnOneRun(s, a, r);
      if Target(s, a.call) == Some(r) {
        CommittedIsFresh(s, a, r);
        CallWeighs(ViewOf(s, r), r, a, acc);
      }
    } else {
      assert Note(acc, a.call.op, 0, |Writes(s, a.call)|) == acc;
    }
    hide Note;
  }

  lemma NothingWeighs(r: string)
    ensures ViewWeighs(ViewOf(EMPTY, r), NOTHING)
  {
    assert ViewOf(EMPTY, r) == NO_RUN;
  }

  lemma {:induction false} HistoryWeighs(history: seq<Attempt>, r: string)
    requires Admissible(EMPTY, history)
    ensures ViewWeighs(ViewOf(After(EMPTY, history), r), AccountOf(history, r))
  {
    hide Gated, Tallies, ViewWeighs, ViewOf, Note, AdmitsAll;
    if history != [] {
      var front, last := history[..|history| - 1], history[|history| - 1];
      HistoryWeighs(front, r);
      HistoryTallies(front, r);
      ReachableIsGated(front, r);
      ReachableIsSound(front);
      ExecWeighs(After(EMPTY, front), last, r, AccountOf(front, r));
    } else {
      NothingWeighs(r);
    }
  }

  /**
   Whatever stopped early, the trail before every resume replays to its `from_status` and shows no
   open or refused approval exactly when, at each resume it tells of, the last status written had
   been announced and the last request told, if any, had been told approved.
   */
  lemma ResumesAreJustifiedIff(history: seq<Attempt>, r: string)
    requires Admissible(EMPTY, history)
    ensures ResumesJustified(ViewOf(After(EMPTY, history), r).auditEvents) <==> AccountOf(history, r).resumesTold
  {
    HistoryWeighs(history, r);
    hide ViewOf, AccountOf, After, Admissible, ResumesJustified;
  }

  /** Requests and decisions in the trail leave the undecided approvals iff as many of either are untold. */
  lemma RequestsBalanceIff(history: seq<Attempt>, r: string)
    requires Admissible(EMPTY, history)
    ensures var v, acc := ViewOf(After(EMPTY, history), r), AccountOf(history, r);
            var undecided := UndecidedCount(v.approvals);
            && Requests(v.auditEvents) + acc.untoldRequests ==
                 Decisions(v.auditEvents) + acc.untoldDecisions + undecided
            && (Requests(v.auditEvents) - Decisions(v.auditEvents) == undecided <==>
                  acc.untoldRequests == acc.untoldDecisions)
  {
    HistoryWeighs(history, r);
    hide ViewOf, AccountOf, After, Admissible, ResumesJustified, UndecidedCount, Requests, Decisions;
  }
}
