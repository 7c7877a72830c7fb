/** Cancellation is final, over every later history, interrupted or not. */
module Cancellation {
  import opened Text
  import opened Records
  import opened Store
  import opened Lifecycle
  import opened Histories
  import opened RunViews
  import opened Gating
  import opened Reachability
  import opened Evidence

  predicate IsCanceled(v: RunView) {
    v.run.Some? && v.run.value.status == Canceled
  }

  /** What may still be added to the trail: decisions, and events of other services. */
  predicate AllowedAfterCancel(body: EventBody) {
    body.ApprovalDecided? || !IsLifecycle(body)
  }

  /** From `v` on, only decisions of already requested approvals happened to the run. */
  predicate OnlyDecisionsSince(v: RunView, later: RunView) {
    && later.run == v.run
    && later.checkpoints == v.checkpoints
    && |later.approvals| == |v.approvals|
    && v.auditEvents <= later.auditEvents
    && (forall i | |v.auditEvents| <= i < |later.auditEvents| :: AllowedAfterCancel(later.auditEvents[i].body))
    && Decisions(later.auditEvents) + UndecidedCount(later.approvals)
       <= Decisions(v.auditEvents) + UndecidedCount(v.approvals)
  }

  lemma OnlyDecisionsTransitive(u: RunView, v: RunView, w: RunView)
    requires OnlyDecisionsSince(u, v) && OnlyDecisionsSince(v, w)
    ensures OnlyDecisionsSince(u, w)
  {
    hide UndecidedCount, Decisions, AllowedAfterCancel;
  }

  lemma GatedUndecided(v: RunView, r: string)
    requires Gated(v, r)
    ensures UndecidedCount(v.approvals) <= 1
  {
    AtMostOneUndecided(v.approvals);
  }

  lemma CanceledDecision(v: RunView, r: string, c: Call, n: nat)
    requires Gated(v, r) && c.op.DecideApproval? && PlanView(v, c).Success? && Aims(v, r, c) && n <= 2
    ensures OnlyDecisionsSince(v, ApplyViewAll(v, r, PlanView(v, c).value[..n]))
  {
    hide ReportedStates, TrailBacked, Subsequence, UndecidedCount, Decisions;
    hide DistinctIds, OnlyLastUndecided, FindApproval;
    var ws := PlanView(v, c).value;
    var w := ws[0];
    Stages(v, r, ws, n);
    DecisionCounts(v.approvals, w.approvalId, w.decider, w.decision, w.reason, w.at);
    CountsAppend(v.auditEvents, ws[1].event);
    hide Gated;
  }

  /** A canceled run refuses every transition and request, and cannot be created again. */
  lemma CanceledRefuses(v: RunView, r: string, c: Call)
    requires IsCanceled(v) && FreshFor(v, r, c) && !c.op.Record? && !c.op.DecideApproval?
    ensures WritesView(v, c) == []
  {
  }

  lemma CanceledRecord(v: RunView, r: string, c: Call, n: nat)
    requires c.op.Record? && Aims(v, r, c) && n <= 1
    ensures OnlyDecisionsSince(v, ApplyViewAll(v, r, WritesView(v, c)[..n]))
  {
    hide UndecidedCount;
    var ws := WritesView(v, c);
    Stages(v, r, ws, n);
    CountsAppend(v.auditEvents, ws[0].event);
    hide Decisions;
  }

  lemma CanceledCall(v: RunView, r: string, a: Attempt)
    requires Gated(v, r) && IsCanceled(v) && Aims(v, r, a.call) && FreshFor(v, r, a.call)
    ensures OnlyDecisionsSince(v, ExecView(v, r, a))
  {
    hide Gated, Decisions, UndecidedCount, Aims, FreshFor;
    var c := a.call;
    var ws := WritesView(v, c);
    var n := if a.committed < |ws| then a.committed else |ws|;
    assert Prefix(ws, a.committed) == ws[..n];
    if c.op.Record? {
      CanceledRecord(v, r, c, n);
    } else if c.op.DecideApproval? {
      if PlanView(v, c).Success? {
        CanceledDecision(v, r, c, n);
      }
    } else {
      CanceledRefuses(v, r, c);
    }
  }

  lemma CanceledStep(s: Store, a: Attempt, r: string)
    requires Sound(s) && WellFormed(a.call) && AdmitsAll(s, Committed(s, a))
    requires Gated(ViewOf(s, r), r) && IsCanceled(ViewOf(s, r))
    ensures OnlyDecisionsSince(ViewOf(s, r), ViewOf(Exec(s, a), r))
  {
    hide Gated, Sound, ViewOf, Plan, PlanView, Decisions, UndecidedCount;
    if Committed(s, a) != [] {
      CallActsOnOneRun(s, a, r);
      if Target(s, a.call) == Some(r) {
        CommittedIsFresh(s, a, r);
        CanceledCall(ViewOf(s, r), r, a);
      }
    }
  }

  /**
   Once a run is canceled its row, checkpoints and list of requests never change again, no
   `run.*` or `approval.requested` event is ever added, and at most one decision can follow.
   */
  lemma {:induction false} CanceledIsFinal(s: Store, history: seq<Attempt>, r: string)
    requires Sound(s) && Gated(ViewOf(s, r), r) && IsCanceled(ViewOf(s, r)) && Admissible(s, history)
    ensures OnlyDecisionsSince(ViewOf(s, r), ViewOf(After(s, history), r))
    ensures Decisions(ViewOf(After(s, history), r).auditEvents) <= Decisions(ViewOf(s, r).auditEvents) + 1
    ensures Sound(After(s, history)) && Gated(ViewOf(After(s, history), r), r)
  {
    hide Gated, Sound, ViewOf, Plan, AdmitsAll, Decisions, UndecidedCount;
    GatedUndecided(ViewOf(s, r), r);
    if history != [] {
      var front, last := history[..|history| - 1], history[|history| - 1];
      var t := After(s, front);
      CanceledIsFinal(s, front, r);
      ExecKeepsSound(t, last);
      ExecKeepsGated(t, last, r);
      CanceledStep(t, last, r);
      OnlyDecisionsTransitive(ViewOf(s, r), ViewOf(t, r), ViewOf(After(s, history), r));
    }
  }
}
