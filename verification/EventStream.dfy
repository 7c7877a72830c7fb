/** The SSE audit stream: a polling loop with a cursor over the tenant's latest 50 events. */
module EventStream {
  import opened Text
  import opened Queries
  import opened Records
  import opened Store
  import opened Histories
  import opened RunViews

  const WINDOW := 50

  /** Position of the first occurrence, as `list.index`; `None` stands for ValueError. */
  function IndexOf(ids: seq<string>, id: string): (r: Option<nat>)
    ensures r.Some? ==> r.value < |ids| && ids[r.value] == id
    ensures r.None? <==> id !in ids
  {
    if ids == [] then None
    else if ids[0] == id then Some(0)
    else
      match IndexOf(ids[1..], id)
      case Some(i) => Some(i + 1)
      case None => None
  }

  /** `_events_after_cursor`: an unknown cursor starts over at the beginning of the window. */
  function EventsAfterCursor(ids: seq<string>, cursor: Option<string>): (start: nat)
    ensures start <= |ids|
  {
    if cursor.None? then 0
    else
      match IndexOf(ids, cursor.value)
      case Some(i) => i + 1
      case None => 0
  }

  function Ids(events: seq<AuditEvent>): seq<string> {
    seq(|events|, i requires 0 <= i < |events| => events[i].id)
  }

  /** The events one poll yields. */
  function PendingEvents(table: seq<AuditEvent>, tenantId: string, cursor: Option<string>): seq<AuditEvent> {
    var recent := ListRecentEventsForTenant(table, tenantId, WINDOW);
    recent[EventsAfterCursor(Ids(recent), cursor)..]
  }

  function LastId(events: seq<AuditEvent>): Option<string> {
    if events == [] then None else Some(events[|events| - 1].id)
  }

  function NextCursor(cursor: Option<string>, pending: seq<AuditEvent>): Option<string> {
    if pending == [] then cursor else LastId(pending)
  }

  datatype Progress = Progress(cursor: Option<string>, emitted: seq<AuditEvent>)

  /** The stream connected when the table was `tables[0]` and polled on each of the others. */
  function Played(tables: seq<seq<AuditEvent>>, tenantId: string): Progress
    requires tables != []
  {
    var last := tables[|tables| - 1];
    if |tables| == 1 then Progress(LastId(ListRecentEventsForTenant(last, tenantId, WINDOW)), [])
    else
      var before := Played(tables[..|tables| - 1], tenantId);
      var pending := PendingEvents(last, tenantId, before.cursor);
      Progress(NextCursor(before.cursor, pending), before.emitted + pending)
  }

  // ---------------------------------------------------------------- the generator

  class EventIterator {
    const tenantId: string
    var cursor: Option<string>
    var emitted: seq<AuditEvent>

    constructor (tenantId: string, table: seq<AuditEvent>)
      ensures this.tenantId == tenantId && Progress(cursor, emitted) == Played([table], tenantId)
    {
      this.tenantId := tenantId;
      var seedEvents := ListRecentEventsForTenant(table, tenantId, WINDOW);
      cursor := if seedEvents != [] then Some(seedEvents[|seedEvents| - 1].id) else None;
      emitted := [];
    }

    method Poll(table: seq<AuditEvent>)
      modifies this
      ensures cursor == NextCursor(old(cursor), PendingEvents(table, tenantId, old(cursor)))
      ensures emitted == old(emitted) + PendingEvents(table, tenantId, old(cursor))
    {
      hide ListRecentEventsForTenant, EventsAfterCursor;
      var recentEvents := ListRecentEventsForTenant(table, tenantId, WINDOW);
      var eventIds := Ids(recentEvents);
      var startIndex := EventsAfterCursor(eventIds, cursor);
      var pendingEvents := recentEvents[startIndex..];
      for i := 0 to |pendingEvents|
        invariant cursor == NextCursor(old(cursor), pendingEvents[..i])
        invariant emitted == old(emitted) + pendingEvents[..i]
      {
        cursor := Some(pendingEvents[i].id);
        emitted := emitted + [pendingEvents[i]];
      }
      assert pendingEvents[..|pendingEvents|] == pendingEvents;
    }
  }

  /** One connection: polls until the client is gone. */
  method Stream(tenantId: string, tables: seq<seq<AuditEvent>>) returns (emitted: seq<AuditEvent>)
    requires tables != []
    ensures emitted == Played(tables, tenantId).emitted
  {
    var events := new EventIterator(tenantId, tables[0]);
    assert tables[..1] == [tables[0]];
    var polls := 1;
    while polls < |tables|
      invariant 1 <= polls <= |tables| && events.tenantId == tenantId
      invariant Progress(events.cursor, events.emitted) == Played(tables[..polls], tenantId)
      modifies events
    {
      events.Poll(tables[polls]);
      polls := polls + 1;
      assert tables[..polls][..polls - 1] == tables[..polls - 1];
    }
    assert tables[..|tables|] == tables;
    emitted := events.emitted;
  }

  // ---------------------------------------------------------------- one poll

  predicate DistinctEvents(events: seq<AuditEvent>) {
    forall i, j | 0 <= i < j < |events| :: events[i].id != events[j].id
  }

  lemma CursorInWindow(recent: seq<AuditEvent>, k: nat)
    requires k < |recent| && DistinctEvents(recent)
    ensures EventsAfterCursor(Ids(recent), Some(recent[k].id)) == k + 1
  {
    var ids := Ids(recent);
    assert ids[k] == recent[k].id;
    var i := IndexOf(ids, recent[k].id).value;
    assert recent[i].id == recent[k].id;
  }

  lemma CursorOutsideWindow(recent: seq<AuditEvent>, id: string)
    requires forall i | 0 <= i < |recent| :: recent[i].id != id
    ensures EventsAfterCursor(Ids(recent), Some(id)) == 0
  {
    assert id !in Ids(recent);
  }

  /** A poll yields exactly the last 50 of the events that are new since the cursor was set. */
  lemma PollYieldsLatestNew(seen: seq<AuditEvent>, log: seq<AuditEvent>)
    requires seen <= log && DistinctEvents(log)
    ensures var recent := Latest(log, WINDOW);
            recent[EventsAfterCursor(Ids(recent), LastId(seen))..] == Latest(log[|seen|..], WINDOW)
    ensures NextCursor(LastId(seen), Latest(log[|seen|..], WINDOW)) == LastId(log)
  {
    var recent := Latest(log, WINDOW);
    var offset := |log| - |recent|;
    assert DistinctEvents(recent);
    if seen != [] {
      var at := |seen| - 1;
      assert seen[at] == log[at];
      if at >= offset {
        CursorInWindow(recent, at - offset);
      } else {
        CursorOutsideWindow(recent, log[at].id);
      }
    }
    hide EventsAfterCursor, DistinctEvents;
  }

  function TenantLog(table: seq<AuditEvent>, tenantId: string): seq<AuditEvent> {
    Where(table, EventOfTenant(tenantId))
  }

  /** The tenant's log holds its events in the order of the table, and no other tenant's. */
  lemma {:induction false} TenantLogIsTenants(table: seq<AuditEvent>, tenantId: string)
    ensures forall e :: e in TenantLog(table, tenantId) <==> e in table && e.tenantId == tenantId
    ensures table != [] ==>
              var front, last := table[..|table| - 1], table[|table| - 1];
              TenantLog(table, tenantId) ==
                TenantLog(front, tenantId) + if last.tenantId == tenantId then [last] else []
  {
    forall e ensures e in TenantLog(table, tenantId) <==> e in table && e.tenantId == tenantId {
      WhereMember(table, EventOfTenant(tenantId), e);
    }
  }

  // ---------------------------------------------------------------- many polls

  /** The audit table as it was at each poll: it only ever grows. */
  predicate AppendOnly(tables: seq<seq<AuditEvent>>) {
    forall i | 0 < i < |tables| :: tables[i - 1] <= tables[i]
  }

  predicate Streamable(table: seq<AuditEvent>) {
    Ascending(table, EventKey) && DistinctEvents(table)
  }

  predicate Observed(tables: seq<seq<AuditEvent>>) {
    tables != [] && AppendOnly(tables) && forall i | 0 <= i < |tables| :: Streamable(tables[i])
  }

  /** How many events the tenant had at each poll. */
  function Lengths(tables: seq<seq<AuditEvent>>, tenantId: string): seq<nat> {
    seq(|tables|, i requires 0 <= i < |tables| => |TenantLog(tables[i], tenantId)|)
  }

  function Range(lo: nat, hi: nat): seq<nat>
    requires lo <= hi
  {
    seq(hi - lo, i requires 0 <= i < hi - lo => lo + i)
  }

  predicate NonDecreasing(lengths: seq<nat>) {
    forall i | 0 < i < |lengths| :: lengths[i - 1] <= lengths[i]
  }

  /** The log positions a stream shows: after each poll, the last 50 of the new ones. */
  function Positions(lengths: seq<nat>): seq<nat>
    requires lengths != [] && NonDecreasing(lengths)
  {
    if |lengths| == 1 then []
    else
      var front, hi := lengths[..|lengths| - 1], lengths[|lengths| - 1];
      var seen := front[|front| - 1];
      Positions(front) + Range(if hi - seen <= WINDOW then seen else hi - WINDOW, hi)
  }

  function At(log: seq<AuditEvent>, positions: seq<nat>): seq<AuditEvent>
    requires forall p <- positions :: p < |log|
  {
    seq(|positions|, i requires 0 <= i < |positions| => assert positions[i] in positions; log[positions[i]])
  }

  /** Strictly increasing, hence without repeats, and within the events after the connection. */
  lemma {:induction false} PositionsIncrease(lengths: seq<nat>)
    requires lengths != [] && NonDecreasing(lengths)
    ensures forall i, j | 0 <= i < j < |Positions(lengths)| :: Positions(lengths)[i] < Positions(lengths)[j]
    ensures forall p <- Positions(lengths) :: lengths[0] <= p < lengths[|lengths| - 1]
    ensures lengths[0] <= lengths[|lengths| - 1]
  {
    if |lengths| > 1 {
      var front := lengths[..|lengths| - 1];
      PositionsIncrease(front);
      var ps := Positions(front);
      assert forall i | 0 <= i < |ps| :: ps[i] in ps;
    }
  }

  lemma {:induction false} WherePrefix<T>(rows: seq<T>, more: seq<T>, keep: T -> bool)
    requires rows <= more
    ensures Where(rows, keep) <= Where(more, keep)
  {
    if |rows| < |more| {
      WherePrefix(rows, more[..|more| - 1], keep);
    } else {
      assert rows == more;
    }
  }

  lemma {:induction false} WhereDistinct(events: seq<AuditEvent>, keep: AuditEvent -> bool)
    requires DistinctEvents(events)
    ensures DistinctEvents(Where(events, keep))
  {
    if events != [] {
      var front, last := events[..|events| - 1], events[|events| - 1];
      WhereDistinct(front, keep);
      forall i | 0 <= i < |Where(front, keep)| ensures Where(front, keep)[i].id != last.id {
        WhereMember(front, keep, Where(front, keep)[i]);
        var k :| 0 <= k < |front| && front[k] == Where(front, keep)[i];
        assert events[k] == front[k];
      }
    }
  }

  lemma LengthsGrow(tables: seq<seq<AuditEvent>>, tenantId: string)
    requires Observed(tables)
    ensures NonDecreasing(Lengths(tables, tenantId))
  {
    forall i | 0 < i < |tables| ensures Lengths(tables, tenantId)[i - 1] <= Lengths(tables, tenantId)[i] {
      WherePrefix(tables[i - 1], tables[i], EventOfTenant(tenantId));
    }
  }

  lemma ObservedFront(tables: seq<seq<AuditEvent>>, tenantId: string)
    requires Observed(tables) && |tables| > 1
    ensures Observed(tables[..|tables| - 1])
    ensures Lengths(tables[..|tables| - 1], tenantId) == Lengths(tables, tenantId)[..|tables| - 1]
  {
  }

  /** A poll of the table yields exactly the last 50 of the tenant's new events. */
  lemma PollOfTable(before: seq<AuditEvent>, table: seq<AuditEvent>, tenantId: string)
    requires before <= table && Streamable(table)
    ensures var seen, log := TenantLog(before, tenantId), TenantLog(table, tenantId);
            && seen <= log
            && PendingEvents(table, tenantId, LastId(seen)) == Latest(log[|seen|..], WINDOW)
            && NextCursor(LastId(seen), Latest(log[|seen|..], WINDOW)) == LastId(log)
  {
    WherePrefix(before, table, EventOfTenant(tenantId));
    WhereAscending(table, EventOfTenant(tenantId), EventKey);
    WhereDistinct(table, EventOfTenant(tenantId));
    PollYieldsLatestNew(TenantLog(before, tenantId), TenantLog(table, tenantId));
    hide Where, OrderBy, Ascending, DistinctEvents, Latest, EventsAfterCursor;
  }

  /** A connection starts behind the last event of the tenant. */
  lemma SeedOfTable(table: seq<AuditEvent>, tenantId: string)
    requires Streamable(table)
    ensures LastId(ListRecentEventsForTenant(table, tenantId, WINDOW)) == LastId(TenantLog(table, tenantId))
  {
    WhereAscending(table, EventOfTenant(tenantId), EventKey);
    hide Where, OrderBy, Ascending;
  }

  /**
   Over any number of polls with any growth between them, the stream is the tenant's log read at
   `Positions`, and its cursor is the last event of the log.
   */
  lemma {:induction false} StreamReadsLog(tables: seq<seq<AuditEvent>>, tenantId: string)
    requires Observed(tables)
    ensures NonDecreasing(Lengths(tables, tenantId))
    ensures var log := TenantLog(tables[|tables| - 1], tenantId);
            var positions := Positions(Lengths(tables, tenantId));
            && (forall p <- positions :: p < |log|)
            && Played(tables, tenantId) == Progress(LastId(log), At(log, positions))
  {
    hide TenantLog, Streamable, PendingEvents, NextCursor, LastId, ListRecentEventsForTenant, Latest;
    var lengths := Lengths(tables, tenantId);
    var n := |tables| - 1;
    LengthsGrow(tables, tenantId);
    PositionsIncrease(lengths);
    if n == 0 {
      SeedOfTable(tables[0], tenantId);
    } else {
      var front := tables[..n];
      ObservedFront(tables, tenantId);
      StreamReadsLog(front, tenantId);
      PollOfTable(tables[n - 1], tables[n], tenantId);
      PollExtends(TenantLog(tables[n - 1], tenantId), TenantLog(tables[n], tenantId), Positions(lengths[..n]));
    }
  }

  lemma PollExtends(seen: seq<AuditEvent>, log: seq<AuditEvent>, positions: seq<nat>)
    requires seen <= log && forall p <- positions :: p < |seen|
    ensures var lo := if |log| - |seen| <= WINDOW then |seen| else |log| - WINDOW;
            var more := positions + Range(lo, |log|);
            && (forall p <- more :: p < |log|)
            && At(seen, positions) + Latest(log[|seen|..], WINDOW) == At(log, more)
  {
    assert forall i | 0 <= i < |positions| :: positions[i] in positions;
  }

  // ---------------------------------------------------------------- exact loss

  /** No interval between two polls added more than 50 events. */
  predicate GapsFit(lengths: seq<nat>) {
    forall i | 0 < i < |lengths| :: lengths[i] - lengths[i - 1] <= WINDOW
  }

  lemma GapsFitFront(lengths: seq<nat>)
    requires |lengths| > 1
    ensures var n := |lengths| - 1;
            GapsFit(lengths) <==> GapsFit(lengths[..n]) && lengths[n] - lengths[n - 1] <= WINDOW
  {
    var front := lengths[..|lengths| - 1];
    if GapsFit(lengths) {
      forall i | 0 < i < |front| ensures front[i] - front[i - 1] <= WINDOW {
        assert lengths[i] - lengths[i - 1] <= WINDOW;
      }
    } else {
      var i :| 0 < i < |lengths| && lengths[i] - lengths[i - 1] > WINDOW;
      assert i < |front| ==> front[i] - front[i - 1] > WINDOW;
    }
  }

  lemma {:induction false} PositionsCount(lengths: seq<nat>)
    requires lengths != [] && NonDecreasing(lengths)
    ensures lengths[0] + |Positions(lengths)| <= lengths[|lengths| - 1]
    ensures lengths[0] + |Positions(lengths)| == lengths[|lengths| - 1] <==> GapsFit(lengths)
    ensures GapsFit(lengths) ==> Positions(lengths) == Range(lengths[0], lengths[|lengths| - 1])
  {
    if |lengths| > 1 {
      GapsFitFront(lengths);
      hide GapsFit;
      var front, hi := lengths[..|lengths| - 1], lengths[|lengths| - 1];
      var seen := front[|front| - 1];
      PositionsCount(front);
      if GapsFit(lengths) {
        assert Range(lengths[0], seen) + Range(seen, hi) == Range(lengths[0], hi);
      }
    }
  }

  /**
   The stream shows every event recorded since it connected exactly when no interval between
   two polls added more than 50 events of the tenant.
   */
  lemma StreamIsCompleteIff(tables: seq<seq<AuditEvent>>, tenantId: string)
    requires Observed(tables)
    ensures var lengths := Lengths(tables, tenantId);
            var log := TenantLog(tables[|tables| - 1], tenantId);
            && lengths[0] <= |log|
            && (Played(tables, tenantId).emitted == log[lengths[0]..] <==> GapsFit(lengths))
  {
    hide Played, TenantLog, Positions, GapsFit;
    var lengths := Lengths(tables, tenantId);
    var log := TenantLog(tables[|tables| - 1], tenantId);
    StreamReadsLog(tables, tenantId);
    PositionsIncrease(lengths);
    PositionsCount(lengths);
    hide Observed;
    if GapsFit(lengths) {
      assert At(log, Range(lengths[0], |log|)) == log[lengths[0]..];
    }
  }

  /**
   Each event of the tenant is shown at most once, in the order of the log, only if it was
   recorded after the connection; and all of those are shown iff no interval exceeds 50.
   */
  predicate FollowsLog(tables: seq<seq<AuditEvent>>, tenantId: string)
    requires tables != []
  {
    var log := TenantLog(tables[|tables| - 1], tenantId);
    var lengths := Lengths(tables, tenantId);
    && NonDecreasing(lengths)
    && var positions := Positions(lengths);
    && (forall p <- positions :: lengths[0] <= p < |log|)
    && (forall i, j | 0 <= i < j < |positions| :: positions[i] < positions[j])
    && Played(tables, tenantId).emitted == At(log, positions)
    && lengths[0] <= |log|
    && (Played(tables, tenantId).emitted == log[lengths[0]..] <==> GapsFit(lengths))
  }

  lemma StreamFollowsLog(tables: seq<seq<AuditEvent>>, tenantId: string)
    requires Observed(tables)
    ensures FollowsLog(tables, tenantId)
  {
    hide Played, TenantLog, Positions, GapsFit, At;
    StreamReadsLog(tables, tenantId);
    PositionsIncrease(Lengths(tables, tenantId));
    StreamIsCompleteIff(tables, tenantId);
    hide Observed;
  }

  // ---------------------------------------------------------------- the audit table of a history

  lemma {:induction false} AppendKeepsLog(s: Store, ws: seq<Write>)
    ensures s.auditEvents <= ApplyAll(s, ws).auditEvents
    ensures AdmitsAll(s, ws) && DistinctEvents(s.auditEvents) ==> DistinctEvents(ApplyAll(s, ws).auditEvents)
  {
    if ws != [] {
      AppendKeepsLog(s, ws[..|ws| - 1]);
    }
  }

  lemma {:induction false} LogIsAppendOnly(history: seq<Attempt>, i: nat, j: nat)
    requires i <= j <= |history|
    ensures After(EMPTY, history[..i]).auditEvents <= After(EMPTY, history[..j]).auditEvents
  {
    hide Committed;
    if i < j {
      LogIsAppendOnly(history, i, j - 1);
      assert history[..j][..j - 1] == history[..j - 1];
      var t := After(EMPTY, history[..j - 1]);
      AppendKeepsLog(t, Committed(t, history[j - 1]));
    }
  }

  lemma {:induction false} LogIsStreamable(history: seq<Attempt>, i: nat)
    requires Admissible(EMPTY, history) && i <= |history|
    ensures Streamable(After(EMPTY, history[..i]).auditEvents)
    ensures Admissible(EMPTY, history[..i])
  {
    if i < |history| {
      LogIsStreamable(history[..|history| - 1], i);
      assert history[..|history| - 1][..i] == history[..i];
    } else {
      assert history[..i] == history;
      ReachableIsSound(history);
      if history != [] {
        var front := history[..|history| - 1];
        LogIsStreamable(front, |front|);
        assert front[..|front|] == front;
        AppendKeepsLog(After(EMPTY, front), Committed(After(EMPTY, front), history[|history| - 1]));
      }
    }
  }

  /** The audit table as polls between the calls of a history find it. */
  function Snapshots(history: seq<Attempt>, cuts: seq<nat>): seq<seq<AuditEvent>>
    requires forall i | 0 <= i < |cuts| :: cuts[i] <= |history|
  {
    seq(|cuts|, i requires 0 <= i < |cuts| => After(EMPTY, history[..cuts[i]]).auditEvents)
  }

  lemma SnapshotsAreObserved(history: seq<Attempt>, cuts: seq<nat>)
    requires Admissible(EMPTY, history) && cuts != [] && NonDecreasing(cuts)
    requires forall i | 0 <= i < |cuts| :: cuts[i] <= |history|
    ensures Observed(Snapshots(history, cuts))
  {
    hide Streamable, Admissible, After;
    var tables := Snapshots(history, cuts);
    forall i | 0 <= i < |cuts| ensures Streamable(tables[i]) {
      LogIsStreamable(history, cuts[i]);
    }
    forall i | 0 < i < |cuts| ensures tables[i - 1] <= tables[i] {
      LogIsAppendOnly(history, cuts[i - 1], cuts[i]);
    }
  }

  /**
   Whatever calls run between the polls, finished or stopped early, the stream follows the
   tenant's log.
   */
  lemma StreamOfHistory(history: seq<Attempt>, cuts: seq<nat>, tenantId: string)
    requires Admissible(EMPTY, history) && cuts != [] && NonDecreasing(cuts)
    requires forall i | 0 <= i < |cuts| :: cuts[i] <= |history|
    ensures FollowsLog(Snapshots(history, cuts), tenantId)
  {
    SnapshotsAreObserved(history, cuts);
    StreamFollowsLog(Snapshots(history, cuts), tenantId);
    hide FollowsLog, Admissible;
  }

  /** A poll never yields another tenant's event, whatever the order of texts and the cursor. */
  lemma PollKeepsTenant(table: seq<AuditEvent>, tenantId: string, cursor: Option<string>)
    ensures forall e <- PendingEvents(table, tenantId, cursor) :: e in table && e.tenantId == tenantId
  {
    hide EventsAfterCursor, Ids, OrderBy;
    var log := TenantLog(table, tenantId);
    var recent := ListRecentEventsForTenant(table, tenantId, WINDOW);
    OrderBySorts(log, EventKey);
    TenantLogIsTenants(table, tenantId);
    forall e <- PendingEvents(table, tenantId, cursor) ensures e in table && e.tenantId == tenantId {
      assert e in recent && e in OrderBy(log, EventKey);
      SameMember(OrderBy(log, EventKey), log, e);
    }
  }

  /** A connection shows its own tenant's events only. */
  lemma {:induction false} StreamKeepsTenant(tables: seq<seq<AuditEvent>>, tenantId: string)
    requires tables != []
    ensures forall e <- Played(tables, tenantId).emitted :: e.tenantId == tenantId
  {
    hide PendingEvents;
    if |tables| > 1 {
      var n := |tables| - 1;
      var before := Played(tables[..n], tenantId);
      StreamKeepsTenant(tables[..n], tenantId);
      PollKeepsTenant(tables[n], tenantId, before.cursor);
    }
  }
}
