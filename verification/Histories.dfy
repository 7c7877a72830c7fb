/**
 Histories of serialised calls in which execution may stop after any transaction, and what
 the surroundings provide: fresh ids and increasing `created_at` texts.
 */
module Histories {
  import opened Queries
  import opened Records
  import opened Store
  import opened Lifecycle

  /** A call and how many of its transactions were committed before execution stopped. */
  datatype Attempt = Attempt(call: Call, committed: nat)

  function Prefix<T>(s: seq<T>, n: nat): seq<T> {
    if n < |s| then s[..n] else s
  }

  function Committed(s: Store, a: Attempt): seq<Write> {
    Prefix(Writes(s, a.call), a.committed)
  }

  predicate Complete(s: Store, a: Attempt) {
    |Writes(s, a.call)| <= a.committed
  }

  function Exec(s: Store, a: Attempt): Store {
    ApplyAll(s, Committed(s, a))
  }

  function After(s: Store, history: seq<Attempt>): Store {
    if history == [] then s else Exec(After(s, history[..|history| - 1]), history[|history| - 1])
  }

  /** Stopping early leaves the gateway's log with a prefix of the transactions the call had planned. */
  lemma StoppedCallIsLogPrefix(s: Store, log: seq<Write>, a: Attempt)
    requires s == ApplyAll(EMPTY, log)
    ensures Exec(s, a) == ApplyAll(EMPTY, log + Committed(s, a))
    ensures Committed(s, a) <= Writes(s, a.call)
    ensures Complete(s, a) ==> Exec(s, a) == ApplyAll(s, Writes(s, a.call))
  {
    ApplyAllAppend(EMPTY, log, Committed(s, a));
  }

  // ---------------------------------------------------------------- surroundings

  /** New rows carry new ids and sort behind the rows already there. */
  predicate Admits(s: Store, w: Write) {
    match w
    case InsertRun(run) => run.id !in s.runs
    case InsertCheckpoint(c) => ComesLast(s.checkpoints, c, CheckpointKey)
    case MarkWaiting(a, _) =>
      && (forall i | 0 <= i < |s.approvals| :: s.approvals[i].id != a.id)
      && ComesLast(s.approvals, a, ApprovalKey)
    case InsertEvent(e) =>
      && (forall i | 0 <= i < |s.auditEvents| :: s.auditEvents[i].id != e.id)
      && ComesLast(s.auditEvents, e, EventKey)
    case _ => true
  }

  predicate AdmitsAll(s: Store, ws: seq<Write>) {
    ws != [] ==>
      var front := ws[..|ws| - 1];
      AdmitsAll(s, front) && Admits(ApplyAll(s, front), ws[|ws| - 1])
  }

  /** Every committed transaction of the history met the assumptions. */
  predicate Admissible(s: Store, history: seq<Attempt>) {
    history != [] ==>
      var front, last := history[..|history| - 1], history[|history| - 1];
      Admissible(s, front) && WellFormed(last.call) && AdmitsAll(After(s, front), Committed(After(s, front), last))
  }

  // ---------------------------------------------------------------- tables in order

  predicate DistinctIds(rows: seq<Approval>) {
    forall i, j | 0 <= i < j < |rows| :: rows[i].id != rows[j].id
  }

  predicate InOrder(s: Store) {
    && Ascending(s.checkpoints, CheckpointKey)
    && Ascending(s.approvals, ApprovalKey)
    && Ascending(s.auditEvents, EventKey)
  }

  predicate Sound(s: Store) {
    Referential(s) && InOrder(s) && DistinctIds(s.approvals)
  }

  lemma ApplyKeepsSound(s: Store, w: Write)
    requires Sound(s) && KeysHold(s, w) && Admits(s, w)
    ensures Sound(Apply(s, w))
  {
    ApplyKeepsReferential(s, w);
    match w
    case InsertCheckpoint(c) => AscendingAppend(s.checkpoints, c, CheckpointKey);
    case MarkWaiting(a, _) => AscendingAppend(s.approvals, a, ApprovalKey);
    case InsertEvent(e) => AscendingAppend(s.auditEvents, e, EventKey);
    case _ =>
  }
}
