/** Inputs at which the code falls short of what its documentation promises. */
module Instances {
  import opened Text
  import opened Timestamps
  import opened Queries
  import opened Records
  import opened Store
  import opened SqliteGateway
  import opened Lifecycle
  import opened Histories
  import opened Gating
  import opened Reachability
  import opened Evidence
  import opened Reconstruction
  import opened Justification
  import opened RunViews
  import opened RunIndependence
  import opened EventStream
  import opened StreamOrder

  const NOON: Instant := Components(2024, 1, 1, 12, 0, 0, 0)

  /** Noon and some microseconds. */
  function Tick(n: nat): Instant
    requires n < 1_000_000
  {
    NOON.(microsecond := n)
  }

  lemma TicksAdvance(m: nat, n: nat)
    requires m < n < 1_000_000
    ensures Earlier(Tick(m), Tick(n))
    ensures TextLess(ToIso8601(Tick(m)), ToIso8601(Tick(n))) <==> m > 0
  {
    TextOrderIsTimeOrder(Tick(m), Tick(n));
  }

  // ---------------------------------------------------------------- approvals

  function ApprovedAtNoon(reason: string): Approval {
    Approval("a1", "r", "u", Some("admin"), Approved, reason, ToIso8601(NOON), None)
  }

  function OpenAfterNoon(reason: string): Approval {
    Approval("a2", "r", "u", None, Undecided, reason, ToIso8601(Tick(1)), None)
  }

  lemma NoonOvertakes(rows: seq<Approval>, first: string, second: string) returns (stamp: Approval -> Instant)
    requires rows == [ApprovedAtNoon(first), OpenAfterNoon(second)]
    ensures Requested(rows, stamp) && Overtakes(rows, stamp, 0) && Where(rows, ApprovalOf("r")) == rows
  {
    hide ToIso8601;
    stamp := (x: Approval) => if x.id == "a1" then NOON else Tick(1);
    TicksAdvance(0, 1);
    WhereAll(rows, ApprovalOf("r"));
    hide Where;
  }

  /** An approval of noon sharp opens the gate over a request made a microsecond later. */
  lemma OpenRequestIsIgnored(s: Store, first: string, second: string)
    requires s.approvals == [ApprovedAtNoon(first), OpenAfterNoon(second)]
    ensures ResumeDenial(ListApprovalsForRun(s, "r")).None?
  {
    hide ToIso8601, Requested, Overtakes, Where;
    var stamp := NoonOvertakes(s.approvals, first, second);
    ResumeMisreadsLatestIff(s, "r", stamp);
  }

  /** The same approval lets a second request pass, and the run then has two open ones. */
  lemma SecondRequestPasses(s: Store, first: string, second: string, a: Attempt)
    requires s.approvals == [ApprovedAtNoon(first), OpenAfterNoon(second)]
    requires "r" in s.runs && s.runs["r"].status == WaitingApproval
    requires a.call.op.RequestApproval? && a.call.op.runId == "r" && a.committed > 0
    ensures Plan(s, a.call).Success?
    ensures var rows := Where(Exec(s, a).approvals, ApprovalOf("r"));
            |rows| == 3 && rows[2].status == Undecided && !OnlyLastUndecided(rows)
  {
    hide ToIso8601, Requested, Overtakes, Where, Plan, Exec, OnlyLastUndecided;
    var stamp := NoonOvertakes(s.approvals, first, second);
    SecondRequestPassesIff(s, "r", stamp, a);
  }

  // ---------------------------------------------------------------- early stops

  lemma CreateStops(c: Call, n: nat)
    requires c.op.Create? && n <= 3
    ensures Admissible(EMPTY, [Attempt(c, n)])
    ensures AccountOf([Attempt(c, n)], c.d0.id) == Note(NOTHING, c.op, n, 3)
  {
    var a := Attempt(c, n);
    var ws := PlanCreate(c).value;
    assert Writes(EMPTY, c) == ws && Committed(EMPTY, a) == ws[..n];
    hide PlanCreate, Writes, Committed, Note, Admits, ApplyAll;
    CreateIsAdmitted(EMPTY, c);
    AdmitsPrefix(EMPTY, ws, n);
    OneCall(EMPTY, a);
    assert [a][..0] == [];
    hide Admissible, AdmitsAll;
  }

  lemma {:induction false} AdmitsPrefix(s: Store, ws: seq<Write>, n: nat)
    requires AdmitsAll(s, ws) && n <= |ws|
    ensures AdmitsAll(s, ws[..n])
  {
    hide Admits;
    if n < |ws| {
      AdmitsPrefix(s, ws[..|ws| - 1], n);
      assert ws[..|ws| - 1][..n] == ws[..n];
    } else {
      assert ws[..n] == ws;
    }
  }

  /** A run whose creation stopped after its first transaction is stored, and unknown to the trail. */
  lemma StoppedCreateIsNotReplayed(c: Call)
    requires c.op.Create?
    ensures Admissible(EMPTY, [Attempt(c, 1)])
    ensures var v := ViewOf(After(EMPTY, [Attempt(c, 1)]), c.d0.id);
            Replay(v.auditEvents) != Stored(v)
  {
    CreateStops(c, 1);
    TrailReconstructsRunIff([Attempt(c, 1)], c.d0.id);
    hide Admissible, ViewOf, After, AccountOf, Replay;
  }

  /** One that stopped after its second has a checkpoint that the trail does not report. */
  lemma StoppedCreateIsNotReported(c: Call)
    requires c.op.Create?
    ensures Admissible(EMPTY, [Attempt(c, 2)])
    ensures var v := ViewOf(After(EMPTY, [Attempt(c, 2)]), c.d0.id);
            |v.checkpoints| == |ReportedStates(v.auditEvents)| + 1
  {
    CreateStops(c, 2);
    TrailReportsCheckpointsIff([Attempt(c, 2)], c.d0.id);
    hide Admissible, ViewOf, After, AccountOf, ReportedStates, States;
  }

  /** The store of a run whose creation stopped after its first transaction. */
  function RunOnly(c: Call): Store
    requires c.op.Create?
  {
    var run := PlanCreate(c).value[0].run;
    Store(map[run.id := run], [], [], [])
  }

  lemma AfterStoppedCreate(c: Call)
    requires c.op.Create?
    ensures After(EMPTY, [Attempt(c, 1)]) == RunOnly(c)
  {
    var a := Attempt(c, 1);
    var ws := PlanCreate(c).value;
    assert Committed(EMPTY, a) == [ws[0]];
    assert [a][..0] == [] && [ws[0]][..0] == [];
    assert ApplyAll(EMPTY, [ws[0]]) == Apply(EMPTY, ws[0]);
    assert After(EMPTY, [a]) == Exec(EMPTY, a);
    assert EMPTY.runs[c.d0.id := ws[0].run] == map[c.d0.id := ws[0].run];
  }

  lemma StopsThen(c: Call, a: Attempt)
    requires c.op.Create? && WellFormed(a.call) && AdmitsAll(RunOnly(c), Committed(RunOnly(c), a))
    requires Target(RunOnly(c), a.call) == Some(c.d0.id)
    ensures var history := [Attempt(c, 1), a];
            && Admissible(EMPTY, history)
            && AccountOf(history, c.d0.id) ==
                 Note(Note(NOTHING, c.op, 1, 3), a.call.op, |Committed(RunOnly(c), a)|, |Writes(RunOnly(c), a.call)|)
  {
    hide Note, AdmitsAll, Committed, Writes, Target, RunOnly, Exec;
    var first := [Attempt(c, 1)];
    CreateStops(c, 1);
    AfterStoppedCreate(c);
    OneMoreCall(EMPTY, first, a);
    assert first + [a] == [Attempt(c, 1), a] && [Attempt(c, 1), a][..1] == first;
    hide Admissible, After;
  }

  /** A run that is resumed after its creation stopped: its trail starts with the resume. */
  lemma UntoldStatusIsResumed(c: Call, resume: Call)
    requires c.op.Create? && resume.op.Resume? && resume.op.runId == c.d0.id
    ensures Admissible(EMPTY, [Attempt(c, 1), Attempt(resume, 3)])
    ensures !ResumesJustified(ViewOf(After(EMPTY, [Attempt(c, 1), Attempt(resume, 3)]), c.d0.id).auditEvents)
  {
    hide Admissible, After, ViewOf, ResumesJustified, AccountOf;
    var s, a := RunOnly(c), Attempt(resume, 3);
    var ws := Writes(s, resume);
    assert ws == [ws[0], ws[1], ws[2]] && Committed(s, a) == ws;
    AdmitsThree(s, ws[0], ws[1], ws[2]);
    hide Writes, Committed;
    StopsThen(c, a);
    ResumesAreJustifiedIff([Attempt(c, 1), a], c.d0.id);
  }

  /** A request that stopped after its first transaction is open, and missing from the trail. */
  lemma UntoldRequestIsOpen(c: Call, request: Call)
    requires c.op.Create? && request.op.RequestApproval? && request.op.runId == c.d0.id
    ensures Admissible(EMPTY, [Attempt(c, 1), Attempt(request, 1)])
    ensures var v := ViewOf(After(EMPTY, [Attempt(c, 1), Attempt(request, 1)]), c.d0.id);
            Requests(v.auditEvents) - Decisions(v.auditEvents) != UndecidedCount(v.approvals)
  {
    hide Admissible, After, ViewOf, AccountOf, Requests, Decisions, UndecidedCount;
    var s, a := RunOnly(c), Attempt(request, 1);
    var ws := Writes(s, request);
    assert |ws| == 3 && Committed(s, a) == [ws[0]];
    assert AdmitsAll(s, [ws[0]]) by {
      assert [ws[0]][..0] == [];
    }
    hide Writes, Committed, AdmitsAll;
    StopsThen(c, a);
    RequestsBalanceIff([Attempt(c, 1), a], c.d0.id);
  }

  // ---------------------------------------------------------------- the stream

  function EventAt(id: string, n: nat): AuditEvent
    requires n < 1_000_000
  {
    AuditEvent(id, "t", None, None, OtherEvent("note", map[]), None, ToIso8601(Tick(n)))
  }

  const AT_NOON := EventAt("a", 0)
  const AFTER_NOON := EventAt("b", 1)
  const NOON_TABLES: seq<seq<AuditEvent>> := [[], [AT_NOON], [AT_NOON, AFTER_NOON]]

  function NoonStamp(): AuditEvent -> Instant {
    (e: AuditEvent) => if e.id == "a" then Tick(0) else Tick(1)
  }

  lemma NoonTablesAreOrderly()
    ensures forall i | 0 <= i < 3 :: TenantLog(NOON_TABLES[i], "t") == NOON_TABLES[i]
    ensures Orderly(NOON_TABLES, "t", NoonStamp())
  {
    hide ToIso8601;
    TicksAdvance(0, 1);
    forall i | 0 <= i < 3 ensures TenantLog(NOON_TABLES[i], "t") == NOON_TABLES[i] {
      WhereAll(NOON_TABLES[i], EventOfTenant("t"));
    }
    hide TenantLog, TextLess, Earlier;
    assert Recorded(NOON_TABLES[2], NoonStamp()) by {
      assert ClockAdvances(NOON_TABLES[2], NoonStamp());
    }
  }

  /** Two events of one second in two polls: the stream never shows the second. */
  lemma EventAfterNoonIsLost()
    ensures AFTER_NOON !in Played(NOON_TABLES, "t").emitted
  {
    hide ToIso8601, TenantLog, Played, Orderly, InWindow;
    NoonTablesAreOrderly();
    StreamOnForwardClock(NOON_TABLES, "t", NoonStamp());
    assert NewAt(NOON_TABLES, "t", 2, 1);
    assert FractionDropped(NoonStamp()(AT_NOON), NoonStamp()(AFTER_NOON));
    assert TenantLog(NOON_TABLES[1], "t")[0] == AT_NOON;
    assert !ShownAt(NOON_TABLES, "t", NoonStamp(), 2, 1);
    hide ShownAt, NewAt, FractionDropped, EventAt;
    assert TenantLog(NOON_TABLES[2], "t")[1] == AFTER_NOON;
  }

  lemma TwoDigits()
    ensures Pow10(2) == 100
  {
    Pow10Values();
  }

  /** The event at position `i` of a burst, each a microsecond after the one before. */
  function BurstEvent(i: nat): AuditEvent
    requires i < 100
  {
    TwoDigits();
    EventAt(Digits(i, 2), i + 1)
  }

  function Burst(n: nat): seq<AuditEvent>
    requires n <= 100
  {
    seq(n, i requires 0 <= i < n => BurstEvent(i))
  }

  lemma BurstIsStreamable(n: nat)
    requires n <= 100
    ensures Streamable(Burst(n)) && TenantLog(Burst(n), "t") == Burst(n)
  {
    forall i, j | 0 <= i < j < n
      ensures TextLess(EventKey(Burst(n)[i]), EventKey(Burst(n)[j])) && Burst(n)[i].id != Burst(n)[j].id
    {
      TicksAdvance(i + 1, j + 1);
      TwoDigits();
      DigitsInjective(i, j, 2);
    }
    WhereAll(Burst(n), EventOfTenant("t"));
    hide Burst;
  }

  lemma PositionsOf51()
    ensures NonDecreasing([0, 51]) && Positions([0, 51]) == Range(1, 51)
  {
    var lengths := [0, 51];
    assert lengths[..1] == [0];
    assert Positions([0]) == [];
  }

  lemma AtRange(log: seq<AuditEvent>)
    requires |log| == 51
    ensures (forall p <- Range(1, 51) :: p < |log|) && At(log, Range(1, 51)) == log[1..]
  {
  }

  /** 51 events between two polls: the stream starts with the second. */
  lemma FirstOf51IsLost()
    ensures Observed([[], Burst(51)]) && Played([[], Burst(51)], "t").emitted == Burst(51)[1..]
  {
    hide Played, Positions, At, Range, Where;
    var tables := [[], Burst(51)];
    BurstIsStreamable(51);
    assert |Burst(51)| == 51;
    hide Burst;
    assert TenantLog([], "t") == [] by {
      WhereAll<AuditEvent>([], EventOfTenant("t"));
    }
    hide TenantLog;
    assert Lengths(tables, "t") == [0, 51];
    StreamReadsLog(tables, "t");
    PositionsOf51();
    AtRange(Burst(51));
  }

  // ---------------------------------------------------------------- operation ids

  function DrawAt(n: nat): Draw
    requires 0 < n < 10
  {
    Draw([DIGITS[n]], ToIso8601(Tick(n)))
  }

  /** Runs "1" and "4" are created, and an event about the first takes the operation id. */
  const SHARED_ID: seq<Attempt> := [
    Attempt(Call(Create("t", "u", "first", map[]), DrawAt(1), DrawAt(2), DrawAt(3)), 3),
    Attempt(Call(Create("t", "u", "second", map[]), DrawAt(4), DrawAt(5), DrawAt(6)), 3),
    Attempt(Call(Record("t", Some("1"), None, OtherEvent("note", map[]), Some("op")),
                 DrawAt(7), DrawAt(7), DrawAt(7)), 1)]

  lemma DrawsAdvance(m: nat, n: nat)
    requires 0 < m < n < 10
    ensures TextLess(DrawAt(m).at, DrawAt(n).at) && DrawAt(m).id != DrawAt(n).id
  {
    hide ToIso8601;
    TicksAdvance(m, n);
  }

  /** Its events, the runs in it, and the draws its rows carry. */
  predicate Holds(s: Store, runs: set<string>, checkpoints: seq<Draw>, events: seq<Draw>) {
    && s.runs.Keys == runs && |s.checkpoints| == |checkpoints| && |s.auditEvents| == |events|
    && (forall i | 0 <= i < |checkpoints| :: s.checkpoints[i].createdAt == checkpoints[i].at)
    && forall i | 0 <= i < |events| :: s.auditEvents[i].id == events[i].id && s.auditEvents[i].createdAt == events[i].at
  }

  lemma CreateExtends(history: seq<Attempt>, a: Attempt, runs: set<string>, checkpoints: seq<Draw>, events: seq<Draw>)
    requires Admissible(EMPTY, history) && a.call.op.Create? && a.committed == 3
    requires var s := After(EMPTY, history); Holds(s, runs, checkpoints, events) && NewRows(s, a.call)
    ensures Admissible(EMPTY, history + [a])
    ensures var s, t := After(EMPTY, history), After(EMPTY, history + [a]);
            && Holds(t, runs + {a.call.d0.id}, checkpoints + [a.call.d1], events + [a.call.d2])
            && t.auditEvents == s.auditEvents + [t.auditEvents[|s.auditEvents|]]
            && t.auditEvents[|s.auditEvents|].operationId.None?
  {
    hide NewRows, AdmitsAll, Admissible, After, ApplyAll;
    var s := After(EMPTY, history);
    assert Committed(s, a) == PlanCreate(a.call).value;
    hide Committed;
    CreateIsAdmitted(s, a.call);
    OneMoreCall(EMPTY, history, a);
  }

  lemma FirstCreates()
    ensures Admissible(EMPTY, SHARED_ID[..2])
    ensures var s := After(EMPTY, SHARED_ID[..2]);
            && Holds(s, {"1", "4"}, [DrawAt(2), DrawAt(5)], [DrawAt(3), DrawAt(6)])
            && s.auditEvents[0].operationId.None? && s.auditEvents[1].operationId.None?
  {
    hide ToIso8601, Tick, TextLess, Admissible;
    var a, b := SHARED_ID[0], SHARED_ID[1];
    assert Admissible(EMPTY, []) by {
      EmptyIsAdmissible();
    }
    CreateExtends([], a, {}, [], []);
    hide After;
    assert [] + [a] == [a] && [a] + [b] == SHARED_ID[..2];
    DrawsAdvance(2, 5);
    DrawsAdvance(3, 6);
    CreateExtends([a], b, {"1"}, [DrawAt(2)], [DrawAt(3)]);
  }

  lemma EmptyIsAdmissible()
    ensures Admissible(EMPTY, [])
  {
  }

  lemma RecordExtends(s: Store, a: Attempt)
    requires a.call.op.Record? && a.call.op.operationId.Some? && a.call.op.about.Some? && a.committed == 1
    requires a.call.op.about.value in s.runs && forall e <- s.auditEvents :: e.operationId.None?
    requires forall i | 0 <= i < |s.auditEvents| ::
               s.auditEvents[i].id != a.call.d0.id && TextLess(s.auditEvents[i].createdAt, a.call.d0.at)
    ensures AdmitsAll(s, Committed(s, a))
    ensures var t := Exec(s, a);
            && t.runs == s.runs && |t.auditEvents| == |s.auditEvents| + 1
            && t.auditEvents[|s.auditEvents|].operationId == a.call.op.operationId
            && t.auditEvents[|s.auditEvents|].runId == a.call.op.about
            && t.auditEvents[..|s.auditEvents|] == s.auditEvents
  {
    hide TextLess;
    var ws := Writes(s, a.call);
    assert Committed(s, a) == [ws[0]];
    hide Writes, Committed;
    assert [ws[0]][..0] == [];
    assert ApplyAll(s, []) == s && ApplyAll(s, [ws[0]]) == Apply(s, ws[0]);
  }

  lemma SharedIdIsAdmissible()
    ensures Admissible(EMPTY, SHARED_ID)
    ensures var s := After(EMPTY, SHARED_ID);
            && s.runs.Keys == {"1", "4"} && |s.auditEvents| == 3
            && s.auditEvents[0].operationId.None? && s.auditEvents[1].operationId.None?
            && s.auditEvents[2].operationId == Some("op") && s.auditEvents[2].runId == Some("1")
  {
    hide ToIso8601, Tick, TextLess, Admissible, After, Committed, Exec, AdmitsAll;
    var c := SHARED_ID[2];
    FirstCreates();
    DrawsAdvance(3, 7);
    DrawsAdvance(6, 7);
    RecordExtends(After(EMPTY, SHARED_ID[..2]), c);
    OneMoreCall(EMPTY, SHARED_ID[..2], c);
    assert SHARED_ID[..2] + [c] == SHARED_ID;
  }

  function NoteAboutSecond(draw: Draw): Call {
    Call(Record("t", Some("4"), None, OtherEvent("note", map[]), Some("op")), draw, draw, draw)
  }

  lemma IdIsTaken(s: Store, draw: Draw)
    requires |s.auditEvents| == 3 && s.auditEvents[0].operationId.None? && s.auditEvents[1].operationId.None?
    requires s.auditEvents[2].operationId == Some("op") && s.auditEvents[2].runId == Some("1")
    ensures Plan(s, NoteAboutSecond(draw)) == Failure(ConflictError) && HeldElsewhere(s, NoteAboutSecond(draw), "4")
  {
    assert s.auditEvents[2] in s.auditEvents;
  }

  lemma SecondAloneTakesId(history: seq<Attempt>, draw: Draw)
    requires Admissible(EMPTY, history) && "4" in After(EMPTY, history).runs
    requires Plan(After(EMPTY, history), NoteAboutSecond(draw)) == Failure(ConflictError)
    requires HeldElsewhere(After(EMPTY, history), NoteAboutSecond(draw), "4")
    ensures Plan(After(EMPTY, Project(EMPTY, history, "4")), NoteAboutSecond(draw)).Success?
  {
    hide Admissible, After, Project, HeldElsewhere;
    var s, t := After(EMPTY, history), After(EMPTY, Project(EMPTY, history, "4"));
    OutcomesAreIndependent(history, "4", NoteAboutSecond(draw));
    RunsAreIndependent(history, "4");
    assert FindRun(t, "4") == FindRun(s, "4") by {
      assert ViewOf(t, "4").run == ViewOf(s, "4").run;
    }
    hide ViewOf, FindEventByOperationId, AllAim;
  }

  /** An event about run "4" is refused, though its operation id is new to that run. */
  lemma OperationIdIsShared(draw: Draw)
    ensures Admissible(EMPTY, SHARED_ID)
    ensures var c := NoteAboutSecond(draw);
            && Plan(After(EMPTY, SHARED_ID), c) == Failure(ConflictError)
            && Plan(After(EMPTY, Project(EMPTY, SHARED_ID, "4")), c).Success?
  {
    hide Admissible, After, Project, HeldElsewhere, Plan;
    SharedIdIsAdmissible();
    IdIsTaken(After(EMPTY, SHARED_ID), draw);
    SecondAloneTakesId(SHARED_ID, draw);
  }
}
