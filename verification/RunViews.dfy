/**
 One run seen on its own: the same transactions on the rows `get_run_view` shows of it.
 */
module RunViews {
  import opened Text
  import opened Queries
  import opened Records
  import opened Store
  import opened Lifecycle
  import opened Histories

  const NO_RUN := RunView(None, [], [], [])

  /** What `w` changes in the view of run `r`. */
  function ApplyView(v: RunView, r: string, w: Write): RunView {
    match w
    case InsertRun(run) => if run.id == r then v.(run := Some(run)) else v
    case UpdateRunStatus(runId, status, output, errorMessage, at) =>
      if runId == r && v.run.Some? then v.(run := Some(Updated(v.run.value, status, output, errorMessage, at))) else v
    case InsertCheckpoint(c) => if c.runId == r then v.(checkpoints := v.checkpoints + [c]) else v
    case MarkWaiting(a, at) =>
      if a.runId != r then v
      else
        var run := if v.run.None? then None else Some(v.run.value.(status := WaitingApproval, updatedAt := at));
        v.(run := run, approvals := v.approvals + [a])
    case UpdateApproval(id, decider, decision, reason, at) =>
      v.(approvals := DecideRows(v.approvals, id, decider, decision, reason, at))
    case InsertEvent(e) => if e.runId == Some(r) then v.(auditEvents := v.auditEvents + [e]) else v
  }

  function ApplyViewAll(v: RunView, r: string, ws: seq<Write>): RunView {
    if ws == [] then v else ApplyView(ApplyViewAll(v, r, ws[..|ws| - 1]), r, ws[|ws| - 1])
  }

  /** The rows of `r` in append order. */
  function RowsOf(s: Store, r: string): RunView {
    RunView(FindRun(s, r), Where(s.checkpoints, CheckpointOf(r)),
            Where(s.approvals, ApprovalOf(r)), Where(s.auditEvents, EventOf(r)))
  }

  lemma ViewIsAppendOrder(s: Store, r: string)
    requires InOrder(s)
    ensures ViewOf(s, r) == RowsOf(s, r)
  {
    WhereAscending(s.checkpoints, CheckpointOf(r), CheckpointKey);
    WhereAscending(s.approvals, ApprovalOf(r), ApprovalKey);
    WhereAscending(s.auditEvents, EventOf(r), EventKey);
  }

  lemma {:induction false} DecideWhere(
    rows: seq<Approval>, r: string, id: string, decider: string, decision: ApprovalStatus, reason: string, at: string)
    ensures Where(DecideRows(rows, id, decider, decision, reason, at), ApprovalOf(r)) ==
            DecideRows(Where(rows, ApprovalOf(r)), id, decider, decision, reason, at)
  {
    if rows != [] {
      var n := |rows| - 1;
      var front := rows[..n];
      DecideWhere(front, r, id, decider, decision, reason, at);
      var decided := DecideRows(rows, id, decider, decision, reason, at);
      assert decided[..n] == DecideRows(front, id, decider, decision, reason, at);
    }
  }

  /** A transaction changes a run's rows as `ApplyView` says. */
  lemma ApplyRows(s: Store, r: string, w: Write)
    ensures RowsOf(Apply(s, w), r) == ApplyView(RowsOf(s, r), r, w)
  {
    match w
    case InsertCheckpoint(c) => WhereAppend(s.checkpoints, c, CheckpointOf(r));
    case MarkWaiting(a, _) => WhereAppend(s.approvals, a, ApprovalOf(r));
    case InsertEvent(e) => WhereAppend(s.auditEvents, e, EventOf(r));
    case UpdateApproval(id, decider, decision, reason, at) =>
      DecideWhere(s.approvals, r, id, decider, decision, reason, at);
    case _ =>
  }

  lemma {:induction false} ApplyAllRows(s: Store, r: string, ws: seq<Write>)
    ensures RowsOf(ApplyAll(s, ws), r) == ApplyViewAll(RowsOf(s, r), r, ws)
  {
    if ws != [] {
      ApplyAllRows(s, r, ws[..|ws| - 1]);
      ApplyRows(ApplyAll(s, ws[..|ws| - 1]), r, ws[|ws| - 1]);
    }
  }

  // ---------------------------------------------------------------- calls on one run

  /** The run a call works on; a decision reaches it through the approval's id only. */
  function Target(s: Store, c: Call): Option<string> {
    match c.op
    case Create(_, _, _, _) => Some(c.d0.id)
    case DecideApproval(id, _, _, _, _) =>
      (match FindApproval(s.approvals, id)
       case Some(a) => Some(a.runId)
       case None => None)
    case Record(_, about, _, _, _) => if Plan(s, c).Success? then about else None
    case _ => Some(c.op.runId)
  }

  /** The call's outcome, computed from one run's view alone. */
  function PlanView(v: RunView, c: Call): Result<seq<Write>> {
    match c.op
    case Create(_, _, _, _) => PlanCreate(c)
    case DecideApproval(id, _, _, _, _) => PlanDecide(FindApproval(v.approvals, id), c)
    case Record(tenantId, about, recorder, body, operationId) =>
      Success([InsertEvent(AuditEvent(c.d0.id, tenantId, about, recorder, body, operationId, c.d0.at))])
    case _ =>
      match v.run
      case None => Failure(NotFoundError)
      case Some(run) => PlanOnRun(run, v.approvals, c)
  }

  function WritesView(v: RunView, c: Call): seq<Write> {
    match PlanView(v, c)
    case Success(ws) => ws
    case Failure(_) => []
  }

  function ExecView(v: RunView, r: string, a: Attempt): RunView {
    ApplyViewAll(v, r, Prefix(WritesView(v, a.call), a.committed))
  }

  lemma FindWhere(rows: seq<Approval>, r: string, id: string)
    requires DistinctIds(rows)
    ensures FindApproval(rows, id).Some? && FindApproval(rows, id).value.runId == r ==>
              FindApproval(Where(rows, ApprovalOf(r)), id) == FindApproval(rows, id)
    ensures FindApproval(rows, id).Some? && FindApproval(rows, id).value.runId != r ==>
              FindApproval(Where(rows, ApprovalOf(r)), id).None?
    ensures FindApproval(rows, id).None? ==> FindApproval(Where(rows, ApprovalOf(r)), id).None?
  {
    var found := FindApproval(rows, id);
    var mine := Where(rows, ApprovalOf(r));
    FindApprovalHasId(rows, id);
    FindApprovalHasId(mine, id);
    var inMine := FindApproval(mine, id);
    if inMine.Some? {
      WhereMember(rows, ApprovalOf(r), inMine.value);
      SameRow(rows, inMine.value, found.value);
    } else if found.Some? && found.value.runId == r {
      WhereMember(rows, ApprovalOf(r), found.value);
    }
  }

  lemma SameRow(rows: seq<Approval>, a: Approval, b: Approval)
    requires DistinctIds(rows) && a in rows && b in rows && a.id == b.id
    ensures a == b
  {
    var i :| 0 <= i < |rows| && rows[i] == a;
    var j :| 0 <= j < |rows| && rows[j] == b;
  }

  /** A call on `r` sees in the tables just what the view of `r` holds. */
  lemma PlanSeesView(s: Store, c: Call, r: string)
    requires Sound(s) && Target(s, c) == Some(r)
    requires c.op.Record? ==> Plan(s, c).Success?
    ensures Plan(s, c) == PlanView(ViewOf(s, r), c)
  {
    ViewIsAppendOrder(s, r);
    if c.op.DecideApproval? {
      FindWhere(s.approvals, r, c.op.approvalId);
    }
  }

  // ---------------------------------------------------------------- calls on other runs

  /** Whether `w` can change the view `v` of run `r`. */
  predicate Touches(v: RunView, r: string, w: Write) {
    match w
    case InsertRun(run) => run.id == r
    case UpdateRunStatus(runId, _, _, _, _) => runId == r
    case InsertCheckpoint(c) => c.runId == r
    case MarkWaiting(a, _) => a.runId == r
    case UpdateApproval(id, _, _, _, _) => exists a <- v.approvals :: a.id == id
    case InsertEvent(e) => e.runId == Some(r)
  }

  lemma {:induction false} UntouchedView(v: RunView, r: string, ws: seq<Write>)
    requires forall w <- ws :: !Touches(v, r, w)
    ensures ApplyViewAll(v, r, ws) == v
  {
    if ws != [] {
      UntouchedView(v, r, ws[..|ws| - 1]);
      var w := ws[|ws| - 1];
      assert w in ws;
      if w.UpdateApproval? {
        assert DecideRows(v.approvals, w.approvalId, w.decider, w.decision, w.reason, w.at) == v.approvals;
      }
    }
  }

  /** A decision on another run's approval finds no row with its id among the rows of `r`. */
  lemma DecidedElsewhere(s: Store, r: string, id: string)
    requires Sound(s) && FindApproval(s.approvals, id).Some? && FindApproval(s.approvals, id).value.runId != r
    ensures forall a <- ViewOf(s, r).approvals :: a.id != id
  {
    ViewIsAppendOrder(s, r);
    FindWhere(s.approvals, r, id);
    FindApprovalHasId(ViewOf(s, r).approvals, id);
  }

  /** Everything an operation on a stored run writes names that run. */
  lemma PlanNamesItsRun(run: Run, approvals: seq<Approval>, c: Call, i: nat)
    requires OnRun(c.op) && run.id == c.op.runId
    requires PlanOnRun(run, approvals, c).Success? && i < |PlanOnRun(run, approvals, c).value|
    ensures !PlanOnRun(run, approvals, c).value[i].UpdateApproval?
    ensures forall v, r | r != c.op.runId :: !Touches(v, r, PlanOnRun(run, approvals, c).value[i])
  {
  }

  lemma OtherRunsUntouched(s: Store, c: Call, r: string, i: nat)
    requires Sound(s) && Target(s, c) != Some(r) && i < |Writes(s, c)|
    ensures !Touches(ViewOf(s, r), r, Writes(s, c)[i])
  {
    if c.op.DecideApproval? {
      DecidedElsewhere(s, r, c.op.approvalId);
    } else if OnRun(c.op) {
      PlanNamesItsRun(s.runs[c.op.runId], ListApprovalsForRun(s, c.op.runId), c, i);
      hide PlanOnRun;
    }
    hide InOrder, DistinctIds, ViewOf, ListApprovalsForRun;
  }

  // ---------------------------------------------------------------- soundness along calls

  lemma {:induction false} RunsGrow(s: Store, ws: seq<Write>)
    ensures s.runs.Keys <= ApplyAll(s, ws).runs.Keys
  {
    if ws != [] {
      RunsGrow(s, ws[..|ws| - 1]);
    }
  }

  /** Planned rows name a stored run, or the run the plan itself has just created. */
  lemma PlannedKeysHold(s: Store, t: Store, c: Call, i: nat)
    requires Sound(s) && i < |Writes(s, c)| && s.runs.Keys <= t.runs.Keys
    requires c.op.Create? && i > 0 ==> c.d0.id in t.runs
    ensures KeysHold(t, Writes(s, c)[i])
  {
    if c.op.DecideApproval? {
      FindApprovalHasId(s.approvals, c.op.approvalId);
    }
  }

  lemma {:induction false} PrefixKeepsSound(s: Store, c: Call, n: nat)
    requires Sound(s) && n <= |Writes(s, c)| && AdmitsAll(s, Writes(s, c)[..n])
    ensures Sound(ApplyAll(s, Writes(s, c)[..n]))
    ensures c.op.Create? && n > 0 ==> c.d0.id in ApplyAll(s, Writes(s, c)[..n]).runs
  {
    if n > 0 {
      var ws := Writes(s, c);
      var t := ApplyAll(s, ws[..n - 1]);
      assert ws[..n][..n - 1] == ws[..n - 1];
      PrefixKeepsSound(s, c, n - 1);
      RunsGrow(s, ws[..n - 1]);
      PlannedKeysHold(s, t, c, n - 1);
      ApplyKeepsSound(t, ws[n - 1]);
      RunsGrow(t, [ws[n - 1]]);
    }
  }

  lemma ExecKeepsSound(s: Store, a: Attempt)
    requires Sound(s) && AdmitsAll(s, Committed(s, a))
    ensures Sound(Exec(s, a))
  {
    var ws := Writes(s, a.call);
    var n := if a.committed < |ws| then a.committed else |ws|;
    assert Committed(s, a) == ws[..n];
    PrefixKeepsSound(s, a.call, n);
  }

  /** In every reachable state queries return append order and approval ids are distinct. */
  lemma {:induction false} ReachableIsSound(history: seq<Attempt>)
    requires Admissible(EMPTY, history)
    ensures Sound(After(EMPTY, history))
  {
    if history != [] {
      ReachableIsSound(history[..|history| - 1]);
      ExecKeepsSound(After(EMPTY, history[..|history| - 1]), history[|history| - 1]);
    }
  }

  /**
   One call seen from one run: a call on the run acts as it would with that run alone, and any
   other call, whole or cut short, leaves everything `get_run_view` shows of the run unchanged.
   */
  lemma CallActsOnOneRun(s: Store, a: Attempt, r: string)
    requires Sound(s) && AdmitsAll(s, Committed(s, a))
    ensures Target(s, a.call) == Some(r) ==>
              Plan(s, a.call) == PlanView(ViewOf(s, r), a.call) && ViewOf(Exec(s, a), r) == ExecView(ViewOf(s, r), r, a)
    ensures Target(s, a.call) != Some(r) ==> ViewOf(Exec(s, a), r) == ViewOf(s, r)
  {
    ExecKeepsSound(s, a);
    ViewIsAppendOrder(s, r);
    ViewIsAppendOrder(Exec(s, a), r);
    ApplyAllRows(s, r, Committed(s, a));
    if Target(s, a.call) == Some(r) {
      PlanSeesView(s, a.call, r);
    } else {
      forall w <- Committed(s, a) ensures !Touches(ViewOf(s, r), r, w) {
        var i :| 0 <= i < |Writes(s, a.call)| && Writes(s, a.call)[i] == w;
        OtherRunsUntouched(s, a.call, r, i);
      }
      UntouchedView(ViewOf(s, r), r, Committed(s, a));
    }
  }
}
