/** The per-run results lifted to every state the whole store can reach. */
module Reachability {
  import opened Text
  import opened Queries
  import opened Records
  import opened Store
  import opened Lifecycle
  import opened Histories
  import opened RunViews
  import opened Gating

  lemma {:induction false} FirstAdmitted(s: Store, ws: seq<Write>)
    requires AdmitsAll(s, ws) && ws != []
    ensures Admits(s, ws[0])
  {
    if |ws| > 1 {
      FirstAdmitted(s, ws[..|ws| - 1]);
    } else {
      assert ws[..0] == [];
    }
  }

  /** A call that committed something drew ids that were new to the run it works on. */
  lemma CommittedIsFresh(s: Store, a: Attempt, r: string)
    requires Sound(s) && WellFormed(a.call) && AdmitsAll(s, Committed(s, a)) && Committed(s, a) != []
    requires Target(s, a.call) == Some(r)
    ensures Aims(ViewOf(s, r), r, a.call) && FreshFor(ViewOf(s, r), r, a.call)
  {
    var c, v := a.call, ViewOf(s, r);
    FirstAdmitted(s, Committed(s, a));
    assert Committed(s, a)[0] == Writes(s, c)[0];
    ViewIsAppendOrder(s, r);
    if c.op.DecideApproval? {
      FindWhere(s.approvals, r, c.op.approvalId);
    } else if c.op.RequestApproval? {
      forall i | 0 <= i < |v.approvals| ensures v.approvals[i].id != c.d0.id {
        WhereMember(s.approvals, ApprovalOf(r), v.approvals[i]);
      }
    }
  }

  lemma ExecKeepsGated(s: Store, a: Attempt, r: string)
    requires Sound(s) && WellFormed(a.call) && AdmitsAll(s, Committed(s, a)) && Gated(ViewOf(s, r), r)
    ensures Gated(ViewOf(Exec(s, a), r), r)
  {
    if Committed(s, a) != [] {
      CallActsOnOneRun(s, a, r);
      if Target(s, a.call) == Some(r) {
        CommittedIsFresh(s, a, r);
        CallKeepsGated(ViewOf(s, r), r, a);
      }
    }
    hide Gated, ViewOf, Writes, Plan;
  }

  /**
   In every state reachable by serialised calls, each of which may stop after any transaction,
   every run obeys the approval gate and its trail is backed by its rows.
   */
  lemma {:induction false} ReachableIsGated(history: seq<Attempt>, r: string)
    requires Admissible(EMPTY, history)
    ensures Gated(ViewOf(After(EMPTY, history), r), r)
  {
    if history != [] {
      var front, last := history[..|history| - 1], history[|history| - 1];
      ReachableIsGated(front, r);
      ReachableIsSound(front);
      ExecKeepsGated(After(EMPTY, front), last, r);
    }
  }

  lemma AdmitsThree(s: Store, a: Write, b: Write, c: Write)
    requires Admits(s, a) && Admits(Apply(s, a), b) && Admits(Apply(Apply(s, a), b), c)
    ensures AdmitsAll(s, [a, b, c]) && ApplyAll(s, [a, b, c]) == Apply(Apply(Apply(s, a), b), c)
  {
    hide Admits, Apply;
    assert [a, b, c][..2] == [a, b] && [a, b][..1] == [a] && [a][..0] == [];
    assert ApplyAll(s, [a]) == Apply(s, a) && ApplyAll(s, [a, b]) == Apply(Apply(s, a), b);
    assert AdmitsAll(s, [a]) && AdmitsAll(s, [a, b]);
  }

  /** The rows a create adds carry new ids and sort behind the rows of their tables. */
  predicate NewRows(s: Store, c: Call)
    requires c.op.Create?
  {
    var ws := PlanCreate(c).value;
    && c.d0.id !in s.runs
    && ComesLast(s.checkpoints, ws[1].checkpoint, CheckpointKey)
    && ComesLast(s.auditEvents, ws[2].event, EventKey)
    && forall i | 0 <= i < |s.auditEvents| :: s.auditEvents[i].id != c.d2.id
  }

  lemma CreateIsAdmitted(s: Store, c: Call)
    requires c.op.Create? && NewRows(s, c)
    ensures AdmitsAll(s, PlanCreate(c).value)
    ensures var ws := PlanCreate(c).value;
            ApplyAll(s, ws) ==
              Store(s.runs[c.d0.id := ws[0].run], s.checkpoints + [ws[1].checkpoint], s.approvals,
                    s.auditEvents + [ws[2].event])
  {
    var ws := PlanCreate(c).value;
    AdmitsThree(s, ws[0], ws[1], ws[2]);
    assert ws == [ws[0], ws[1], ws[2]];
    hide Admits, AdmitsAll;
  }

  predicate JustCreated(v: RunView) {
    && v.run.Some? && v.run.value.status == Pending
    && |v.checkpoints| == |v.auditEvents| == 1 && v.approvals == []
  }

  lemma CreatedView(c: Call)
    requires c.op.Create?
    ensures JustCreated(ExecView(NO_RUN, c.d0.id, Attempt(c, 3)))
  {
    var ws := WritesView(NO_RUN, c);
    Stages(NO_RUN, c.d0.id, ws, 3);
    assert ws[..3] == ws;
  }

  lemma OneMoreCall(s: Store, history: seq<Attempt>, a: Attempt)
    requires Admissible(s, history) && WellFormed(a.call)
    requires AdmitsAll(After(s, history), Committed(After(s, history), a))
    ensures Admissible(s, history + [a]) && After(s, history + [a]) == Exec(After(s, history), a)
  {
    hide WellFormed, AdmitsAll, Committed, Exec;
    assert (history + [a])[..|history|] == history;
  }

  lemma OneCall(s: Store, a: Attempt)
    requires WellFormed(a.call) && AdmitsAll(s, Committed(s, a))
    ensures Admissible(s, [a]) && After(s, [a]) == Exec(s, a)
  {
    hide WellFormed, AdmitsAll, Committed, Exec;
    OneMoreCall(s, [], a);
    assert [] + [a] == [a];
  }

  /** The assumptions can be met: creating a run is an admissible history, and leaves it pending. */
  lemma CreatingIsAdmissible(c: Call)
    requires c.op.Create?
    ensures Admissible(EMPTY, [Attempt(c, 3)])
    ensures JustCreated(ViewOf(After(EMPTY, [Attempt(c, 3)]), c.d0.id))
  {
    hide ApplyAll, AdmitsAll, Exec, ExecView, JustCreated, Admissible, After;
    var a, r := Attempt(c, 3), c.d0.id;
    assert Committed(EMPTY, a) == PlanCreate(c).value;
    assert ViewOf(EMPTY, r) == NO_RUN;
    hide ViewOf, PlanCreate, Committed;
    CreateIsAdmitted(EMPTY, c);
    OneCall(EMPTY, a);
    CreatedView(c);
    CallActsOnOneRun(EMPTY, a, r);
  }

  /** A running run never had an approval requested, or its latest request was approved. */
  lemma RunningRunIsApproved(history: seq<Attempt>, r: string)
    requires Admissible(EMPTY, history)
    ensures var v := ViewOf(After(EMPTY, history), r);
            && (v.run.Some? && v.run.value.status == Running ==> v.approvals == [] || LastApproved(v.approvals))
            && (v.run.Some? ==> v.run.value.status != Completed && v.run.value.status != Failed)
            && OnlyLastUndecided(v.approvals)
  {
    ReachableIsGated(history, r);
    hide ViewOf, Admissible;
  }

  // ---------------------------------------------------------------- decisions are final

  /** `rows` may become `later`: rows are only added, and a decided row stays as it is. */
  predicate DecisionsKept(rows: seq<Approval>, later: seq<Approval>) {
    && |rows| <= |later|
    && forall i | 0 <= i < |rows| ::
         && later[i].id == rows[i].id && later[i].runId == rows[i].runId
         && later[i].requestedBy == rows[i].requestedBy && later[i].createdAt == rows[i].createdAt
         && (rows[i].status != Undecided ==> later[i] == rows[i])
  }

  lemma {:induction false} AppendsKeepDecisions(s: Store, ws: seq<Write>)
    requires forall w <- ws :: !w.UpdateApproval?
    ensures DecisionsKept(s.approvals, ApplyAll(s, ws).approvals)
  {
    if ws != [] {
      assert ws[|ws| - 1] in ws;
      AppendsKeepDecisions(s, ws[..|ws| - 1]);
    }
  }

  /** Distinct ids: the one row a decision rewrites is the undecided row it found. */
  lemma DecisionRewritesOneRow(s: Store, w: Write)
    requires DistinctIds(s.approvals) && w.UpdateApproval?
    requires FindApproval(s.approvals, w.approvalId).Some?
    requires FindApproval(s.approvals, w.approvalId).value.status == Undecided
    ensures DecisionsKept(s.approvals, Apply(s, w).approvals)
  {
    FindApprovalHasId(s.approvals, w.approvalId);
  }

  lemma OnlyDecisionsRewrite(s: Store, c: Call, i: nat)
    requires i < |Writes(s, c)| && (c.op.DecideApproval? ==> i > 0)
    ensures !Writes(s, c)[i].UpdateApproval?
  {
    hide ListApprovalsForRun, ResumeDenial;
  }

  lemma PrefixKeepsDecisions(s: Store, c: Call, n: nat)
    requires Sound(s) && n <= |Writes(s, c)|
    ensures DecisionsKept(s.approvals, ApplyAll(s, Writes(s, c)[..n]).approvals)
  {
    var ws := Writes(s, c);
    forall i | 0 <= i < |ws| && (c.op.DecideApproval? ==> i > 0) ensures !ws[i].UpdateApproval? {
      OnlyDecisionsRewrite(s, c, i);
    }
    if c.op.DecideApproval? && n > 0 {
      DecisionRewritesOneRow(s, ws[0]);
      AppendsKeepDecisions(Apply(s, ws[0]), ws[1..n]);
      ApplyAllAppend(s, [ws[0]], ws[1..n]);
      assert ws[..n] == [ws[0]] + ws[1..n];
      assert ApplyAll(s, [ws[0]]) == Apply(s, ws[0]) by { assert [ws[0]][..0] == []; }
    } else {
      AppendsKeepDecisions(s, ws[..n]);
    }
    hide Writes, InOrder, Referential, DistinctIds;
  }

  /** A decided approval never changes again, over any later history, interrupted or not. */
  lemma {:induction false} DecisionsAreFinal(s: Store, history: seq<Attempt>)
    requires Sound(s) && Admissible(s, history)
    ensures DecisionsKept(s.approvals, After(s, history).approvals) && Sound(After(s, history))
  {
    if history != [] {
      var front, last := history[..|history| - 1], history[|history| - 1];
      DecisionsAreFinal(s, front);
      var t := After(s, front);
      ExecKeepsSound(t, last);
      var ws := Writes(t, last.call);
      var n := if last.committed < |ws| then last.committed else |ws|;
      assert Committed(t, last) == ws[..n];
      PrefixKeepsDecisions(t, last.call, n);
    }
  }
}
