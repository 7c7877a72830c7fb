/**
 Runs do not influence each other: the calls of a history that work on one run are by
 themselves a history with the same outcomes and the same view of that run.

 The one exception is the unique index on operation ids, which all runs share: an event it
 refuses is not part of the run's own history.
 */
module RunIndependence {
  import opened Text
  import opened Queries
  import opened Records
  import opened Store
  import opened Lifecycle
  import opened Histories
  import opened RunViews

  /** The calls of a history that work on run `r`, decisions included. */
  function Project(s: Store, history: seq<Attempt>, r: string): seq<Attempt> {
    if history == [] then []
    else
      var front, last := history[..|history| - 1], history[|history| - 1];
      Project(s, front, r) + if Target(After(s, front), last.call) == Some(r) then [last] else []
  }

  // ---------------------------------------------------------------- a store with one run

  predicate Solo(t: Store, r: string) {
    && t.runs.Keys <= {r}
    && (forall i | 0 <= i < |t.checkpoints| :: t.checkpoints[i].runId == r)
    && (forall i | 0 <= i < |t.approvals| :: t.approvals[i].runId == r)
    && (forall i | 0 <= i < |t.auditEvents| :: t.auditEvents[i].runId == Some(r))
  }

  predicate Names(w: Write, r: string) {
    match w
    case InsertRun(run) => run.id == r
    case UpdateRunStatus(runId, _, _, _, _) => runId == r
    case InsertCheckpoint(c) => c.runId == r
    case MarkWaiting(a, _) => a.runId == r
    case UpdateApproval(_, _, _, _, _) => true
    case InsertEvent(e) => e.runId == Some(r)
  }

  lemma {:induction false} NamedKeepSolo(t: Store, ws: seq<Write>, r: string)
    requires Solo(t, r) && forall w <- ws :: Names(w, r)
    ensures Solo(ApplyAll(t, ws), r)
  {
    if ws != [] {
      assert ws[|ws| - 1] in ws;
      NamedKeepSolo(t, ws[..|ws| - 1], r);
    }
  }

  lemma PlanOnRunNames(run: Run, approvals: seq<Approval>, c: Call, i: nat)
    requires OnRun(c.op) && run.id == c.op.runId
    requires PlanOnRun(run, approvals, c).Success? && i < |PlanOnRun(run, approvals, c).value|
    ensures Names(PlanOnRun(run, approvals, c).value[i], c.op.runId)
  {
  }

  lemma TargetIsNamed(s: Store, c: Call, r: string, i: nat)
    requires Sound(s) && Target(s, c) == Some(r) && i < |Writes(s, c)|
    ensures Names(Writes(s, c)[i], r)
  {
    hide InOrder, DistinctIds, ListApprovalsForRun;
    if OnRun(c.op) {
      PlanOnRunNames(s.runs[c.op.runId], ListApprovalsForRun(s, c.op.runId), c, i);
      hide PlanOnRun;
    }
  }

  lemma SoloView(t: Store, r: string)
    requires Sound(t) && Solo(t, r)
    ensures ViewOf(t, r) == RunView(FindRun(t, r), t.checkpoints, t.approvals, t.auditEvents)
  {
    ViewIsAppendOrder(t, r);
    WhereAll(t.checkpoints, CheckpointOf(r));
    WhereAll(t.approvals, ApprovalOf(r));
    WhereAll(t.auditEvents, EventOf(r));
  }

  // ---------------------------------------------------------------- fewer rows admit more

  /** Every row of `t` has a row of `s` with its id and order key. */
  predicate Within(t: Store, s: Store) {
    && t.runs.Keys <= s.runs.Keys
    && (forall a <- t.checkpoints :: exists b <- s.checkpoints :: b.createdAt == a.createdAt)
    && (forall a <- t.approvals :: exists b <- s.approvals :: b.id == a.id && b.createdAt == a.createdAt)
    && (forall a <- t.auditEvents :: exists b <- s.auditEvents :: b.id == a.id && b.createdAt == a.createdAt)
  }

  lemma WithinAdmits(t: Store, s: Store, w: Write)
    requires Within(t, s) && Admits(s, w)
    ensures Admits(t, w)
  {
    match w
    case InsertCheckpoint(c) =>
      forall i | 0 <= i < |t.checkpoints| ensures TextLess(CheckpointKey(t.checkpoints[i]), CheckpointKey(c)) {
        assert t.checkpoints[i] in t.checkpoints;
        var b :| b in s.checkpoints && b.createdAt == t.checkpoints[i].createdAt;
      }
    case MarkWaiting(a, _) =>
      forall i | 0 <= i < |t.approvals|
        ensures t.approvals[i].id != a.id && TextLess(ApprovalKey(t.approvals[i]), ApprovalKey(a))
      {
        assert t.approvals[i] in t.approvals;
        var b :| b in s.approvals && b.id == t.approvals[i].id && b.createdAt == t.approvals[i].createdAt;
      }
    case InsertEvent(e) =>
      forall i | 0 <= i < |t.auditEvents|
        ensures t.auditEvents[i].id != e.id && TextLess(EventKey(t.auditEvents[i]), EventKey(e))
      {
        assert t.auditEvents[i] in t.auditEvents;
        var b :| b in s.auditEvents && b.id == t.auditEvents[i].id && b.createdAt == t.auditEvents[i].createdAt;
      }
    case _ =>
  }

  lemma WithinDecided(
    ts: seq<Approval>, ss: seq<Approval>,
    id: string, decider: string, decision: ApprovalStatus, reason: string, at: string)
    requires forall a <- ts :: exists b <- ss :: b.id == a.id && b.createdAt == a.createdAt
    ensures forall a <- DecideRows(ts, id, decider, decision, reason, at) ::
              exists b <- DecideRows(ss, id, decider, decision, reason, at) ::
                b.id == a.id && b.createdAt == a.createdAt
  {
    var td, sd := DecideRows(ts, id, decider, decision, reason, at), DecideRows(ss, id, decider, decision, reason, at);
    forall a <- td ensures exists b <- sd :: b.id == a.id && b.createdAt == a.createdAt {
      var i :| 0 <= i < |td| && td[i] == a;
      assert ts[i] in ts;
      var b :| b in ss && b.id == ts[i].id && b.createdAt == ts[i].createdAt;
      var j :| 0 <= j < |ss| && ss[j] == b;
      assert sd[j] in sd;
    }
  }

  lemma ApplyKeepsWithin(t: Store, s: Store, w: Write)
    requires Within(t, s)
    ensures Within(Apply(t, w), Apply(s, w))
  {
    var t', s' := Apply(t, w), Apply(s, w);
    match w
    case InsertCheckpoint(c) =>
      forall a <- t'.checkpoints ensures exists b <- s'.checkpoints :: b.createdAt == a.createdAt {
        if a in t.checkpoints {
          var b :| b in s.checkpoints && b.createdAt == a.createdAt;
          assert b in s'.checkpoints;
        } else {
          assert c in s'.checkpoints;
        }
      }
    case MarkWaiting(x, _) =>
      forall a <- t'.approvals ensures exists b <- s'.approvals :: b.id == a.id && b.createdAt == a.createdAt {
        if a in t.approvals {
          var b :| b in s.approvals && b.id == a.id && b.createdAt == a.createdAt;
          assert b in s'.approvals;
        } else {
          assert x in s'.approvals;
        }
      }
    case UpdateApproval(id, decider, decision, reason, at) =>
      WithinDecided(t.approvals, s.approvals, id, decider, decision, reason, at);
    case InsertEvent(e) =>
      forall a <- t'.auditEvents ensures exists b <- s'.auditEvents :: b.id == a.id && b.createdAt == a.createdAt {
        if a in t.auditEvents {
          var b :| b in s.auditEvents && b.id == a.id && b.createdAt == a.createdAt;
          assert b in s'.auditEvents;
        } else {
          assert e in s'.auditEvents;
        }
      }
    case _ =>
  }

  lemma {:induction false} WithinAdmitsAll(t: Store, s: Store, ws: seq<Write>)
    requires Within(t, s) && AdmitsAll(s, ws)
    ensures AdmitsAll(t, ws) && Within(ApplyAll(t, ws), ApplyAll(s, ws))
  {
    hide Within, Admits;
    if ws != [] {
      var front, w := ws[..|ws| - 1], ws[|ws| - 1];
      WithinAdmitsAll(t, s, front);
      WithinAdmits(ApplyAll(t, front), ApplyAll(s, front), w);
      ApplyKeepsWithin(ApplyAll(t, front), ApplyAll(s, front), w);
    }
  }

  /** The one-run store and the full store agree on the run's view, and hold the same rows of it. */
  predicate Mirrors(t: Store, s: Store, r: string) {
    Sound(t) && Sound(s) && Solo(t, r) && ViewOf(t, r) == ViewOf(s, r)
  }

  lemma MirrorRows(t: Store, s: Store, r: string)
    requires Mirrors(t, s, r)
    ensures t.checkpoints == Where(s.checkpoints, CheckpointOf(r))
    ensures t.approvals == Where(s.approvals, ApprovalOf(r))
    ensures t.auditEvents == Where(s.auditEvents, EventOf(r))
    ensures FindRun(t, r) == FindRun(s, r) && t.runs.Keys <= {r}
  {
    SoloView(t, r);
    ViewIsAppendOrder(s, r);
    hide InOrder, DistinctIds, Referential;
  }

  lemma MirrorsWithin(t: Store, s: Store, r: string)
    requires Mirrors(t, s, r)
    ensures Within(t, s) && forall e <- t.auditEvents :: e in s.auditEvents
  {
    hide Mirrors, Where;
    MirrorRows(t, s, r);
    forall a <- t.checkpoints ensures a in s.checkpoints {
      WhereMember(s.checkpoints, CheckpointOf(r), a);
    }
    forall a <- t.approvals ensures a in s.approvals {
      WhereMember(s.approvals, ApprovalOf(r), a);
    }
    forall a <- t.auditEvents ensures a in s.auditEvents {
      WhereMember(s.auditEvents, EventOf(r), a);
    }
  }

  /** In the one-run store the call has the same target and the same outcome. */
  lemma SameOutcome(t: Store, s: Store, r: string, c: Call)
    requires Mirrors(t, s, r) && Target(s, c) == Some(r)
    ensures Target(t, c) == Some(r) && Plan(t, c) == Plan(s, c)
  {
    hide InOrder, OrderBy, Where, PlanOnRun;
    PlanSeesView(s, c, r);
    SoloView(t, r);
    if c.op.DecideApproval? {
      ViewIsAppendOrder(s, r);
      FindWhere(s.approvals, r, c.op.approvalId);
    } else if c.op.Record? {
      MirrorsWithin(t, s, r);
      assert InsertEventError(t, c.op.about, c.op.operationId).None?;
    }
    PlanSeesView(t, c, r);
  }

  lemma MirroredCall(t: Store, s: Store, r: string, a: Attempt)
    requires Mirrors(t, s, r) && AdmitsAll(s, Committed(s, a))
    ensures Target(s, a.call) != Some(r) ==> Mirrors(t, Exec(s, a), r)
    ensures Target(s, a.call) == Some(r) ==>
      AdmitsAll(t, Committed(t, a)) && Mirrors(Exec(t, a), Exec(s, a), r)
  {
    hide Sound, Solo, ViewOf, Plan, PlanView, AdmitsAll, Target;
    ExecKeepsSound(s, a);
    CallActsOnOneRun(s, a, r);
    if Target(s, a.call) == Some(r) {
      SameOutcome(t, s, r, a.call);
      MirrorsWithin(t, s, r);
      WithinAdmitsAll(t, s, Committed(s, a));
      ExecKeepsSound(t, a);
      CallActsOnOneRun(t, a, r);
      forall w <- Committed(t, a) ensures Names(w, r) {
        var i :| 0 <= i < |Writes(t, a.call)| && Writes(t, a.call)[i] == w;
        TargetIsNamed(t, a.call, r, i);
      }
      NamedKeepSolo(t, Committed(t, a), r);
    }
  }

  /** Every call of a history aims at run `r`. */
  predicate AllAim(s: Store, history: seq<Attempt>, r: string) {
    history != [] ==>
      var front, last := history[..|history| - 1], history[|history| - 1];
      AllAim(s, front, r) && Target(After(s, front), last.call) == Some(r)
  }

  lemma {:induction false} ProjectionMirrors(history: seq<Attempt>, r: string)
    requires Admissible(EMPTY, history)
    ensures var alone := Project(EMPTY, history, r);
            && Admissible(EMPTY, alone) && AllAim(EMPTY, alone, r)
            && Mirrors(After(EMPTY, alone), After(EMPTY, history), r)
  {
    if history != [] {
      var front, last := history[..|history| - 1], history[|history| - 1];
      var alone := Project(EMPTY, front, r);
      var s, t := After(EMPTY, front), After(EMPTY, alone);
      ProjectionMirrors(front, r);
      hide Mirrors, AdmitsAll, Target, Exec, Committed;
      MirroredCall(t, s, r, last);
      if Target(s, last.call) == Some(r) {
        SameOutcome(t, s, r, last.call);
        assert (alone + [last])[..|alone|] == alone;
      } else {
        assert alone + [] == alone;
      }
    }
  }

  /**
   The calls on one run, taken out of any admissible history, are an admissible history of
   their own that ends with the same status, checkpoints, approvals and trail of that run.
   */
  lemma RunsAreIndependent(history: seq<Attempt>, r: string)
    requires Admissible(EMPTY, history)
    ensures var alone := Project(EMPTY, history, r);
            && Admissible(EMPTY, alone) && AllAim(EMPTY, alone, r)
            && ViewOf(After(EMPTY, alone), r) == ViewOf(After(EMPTY, history), r)
  {
    ProjectionMirrors(history, r);
    hide Project, Admissible, AllAim, Sound, Solo, ViewOf, After;
  }

  // ---------------------------------------------------------------- outcomes

  /** The run a call is about, whatever becomes of the call. */
  function Concerns(s: Store, c: Call): Option<string> {
    if c.op.Record? then c.op.about else Target(s, c)
  }

  /** The event's operation id is in the audit table, but not on an event of run `r`. */
  predicate HeldElsewhere(s: Store, c: Call, r: string) {
    && c.op.Record? && c.op.operationId.Some?
    && (exists e <- s.auditEvents :: e.operationId == c.op.operationId)
    && forall e <- s.auditEvents | e.operationId == c.op.operationId :: e.runId != Some(r)
  }

  lemma RecordOutcome(t: Store, s: Store, r: string, c: Call)
    requires Mirrors(t, s, r) && c.op.Record? && c.op.about == Some(r)
    ensures Plan(t, c) == Plan(s, c) <==> !HeldElsewhere(s, c, r)
  {
    hide Mirrors, Where;
    MirrorRows(t, s, r);
    forall e ensures e in t.auditEvents <==> e in s.auditEvents && e.runId == Some(r) {
      WhereMember(s.auditEvents, EventOf(r), e);
    }
    assert r in t.runs <==> r in s.runs;
    HeldRunsExist(t, s, r);
  }

  lemma HeldRunsExist(t: Store, s: Store, r: string)
    requires Mirrors(t, s, r)
    ensures t.auditEvents != [] ==> r in t.runs
  {
    hide InOrder, DistinctIds, ViewOf;
    if t.auditEvents != [] {
      assert t.auditEvents[0].runId == Some(r);
    }
  }

  /**
   A call about the run raises or commits the same in the run's own history, except exactly where
   it records an event whose operation id only events outside the run hold.
   */
  lemma OutcomesAreIndependent(history: seq<Attempt>, r: string, c: Call)
    requires Admissible(EMPTY, history) && Concerns(After(EMPTY, history), c) == Some(r)
    ensures var s, t := After(EMPTY, history), After(EMPTY, Project(EMPTY, history, r));
            Plan(t, c) == Plan(s, c) <==> !HeldElsewhere(s, c, r)
  {
    ProjectionMirrors(history, r);
    var s, t := After(EMPTY, history), After(EMPTY, Project(EMPTY, history, r));
    hide Plan, Project, After, Mirrors;
    if c.op.Record? {
      RecordOutcome(t, s, r, c);
    } else {
      SameOutcome(t, s, r, c);
    }
  }
}
