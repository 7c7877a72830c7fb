/**
 The audit stream without the assumption that texts ascend: on a clock that only moves forward,
 exactly which events a poll and a whole connection show.
 */
module StreamOrder {
  import opened Text
  import opened Timestamps
  import opened Queries
  import opened Records
  import opened Store
  import opened EventStream

  // ---------------------------------------------------------------- one poll

  /** The tenant's events were stamped one after the other by an advancing clock. */
  predicate Recorded(log: seq<AuditEvent>, stamp: AuditEvent -> Instant) {
    Stamped(log, EventKey, stamp) && ClockAdvances(log, stamp) && DistinctEvents(log)
  }

  lemma ListingIsDistinct(log: seq<AuditEvent>)
    requires DistinctKeys(log, EventKey) && DistinctEvents(log)
    ensures DistinctEvents(OrderBy(log, EventKey))
  {
    hide TextLess;
    var listed := OrderBy(log, EventKey);
    OrderByAscends(log, EventKey);
    OrderBySorts(log, EventKey);
    forall p, q | 0 <= p < q < |listed| ensures listed[p].id != listed[q].id {
      SameMember(listed, log, listed[p]);
      SameMember(listed, log, listed[q]);
      TextLessIsStrict(EventKey(listed[p]), EventKey(listed[q]));
      var i :| 0 <= i < |log| && log[i] == listed[p];
      var j :| 0 <= j < |log| && log[j] == listed[q];
    }
  }

  lemma PlaceInSuffix(listed: seq<AuditEvent>, m: nat, p: nat)
    requires DistinctEvents(listed) && m <= |listed| && p < |listed|
    ensures listed[p] in listed[m..] <==> m <= p
  {
    if m <= p {
      assert listed[m..][p - m] == listed[p];
    } else {
      forall i | 0 <= i < |listed| - m ensures listed[m..][i] != listed[p] {
        assert listed[m + i].id != listed[p].id;
      }
    }
  }

  /** Where a poll starts reading a listing, when its cursor stands at place `c`. */
  function StartAfter(length: nat, c: nat): (start: nat)
    requires c < length
    ensures start <= length
  {
    if length - WINDOW <= c then c + 1 else length - WINDOW
  }

  /** What a poll over any distinct listing shows: the places in the window behind the cursor's. */
  lemma ShownSuffix(listed: seq<AuditEvent>, c: nat)
    requires DistinctEvents(listed) && c < |listed|
    ensures var recent := Latest(listed, WINDOW);
            recent[EventsAfterCursor(Ids(recent), Some(listed[c].id))..] == listed[StartAfter(|listed|, c)..]
  {
    var recent := Latest(listed, WINDOW);
    var offset := |listed| - |recent|;
    assert recent == listed[offset..] && DistinctEvents(recent);
    if c >= offset {
      assert recent[c - offset] == listed[c];
      CursorInWindow(recent, c - offset);
    } else {
      forall i | 0 <= i < |recent| ensures recent[i].id != listed[c].id {
        assert recent[i] == listed[offset + i];
      }
      CursorOutsideWindow(recent, listed[c].id);
    }
    hide EventsAfterCursor, Ids, DistinctEvents;
  }

  lemma PlacesKeepTextOrder(listed: seq<AuditEvent>, c: nat, p: nat)
    requires Ascending(listed, EventKey) && c < |listed| && p < |listed|
    ensures c < p <==> TextLess(EventKey(listed[c]), EventKey(listed[p]))
  {
    TextLessIsStrict(EventKey(listed[c]), EventKey(listed[p]));
  }

  lemma LaterTextIsShownIff(log: seq<AuditEvent>, k: nat, j: nat)
    requires DistinctKeys(log, EventKey) && DistinctEvents(log) && k < |log| && j < |log|
    ensures var recent := Latest(OrderBy(log, EventKey), WINDOW);
            var behind := |Where(log, SortsBehind(log[j], EventKey))|;
            && (log[j] in recent[EventsAfterCursor(Ids(recent), Some(log[k].id))..] <==>
                  TextLess(EventKey(log[k]), EventKey(log[j])) && behind < WINDOW)
            && behind < |log|
  {
    hide TextLess, EventsAfterCursor, Where, OrderBy;
    var listed := OrderBy(log, EventKey);
    var c := PlaceOf(log, EventKey, k);
    var p := PlaceOf(log, EventKey, j);
    ListingIsDistinct(log);
    OrderByAscends(log, EventKey);
    PlacesKeepTextOrder(listed, c, p);
    ShownSuffix(listed, c);
    PlaceInSuffix(listed, StartAfter(|listed|, c), p);
    hide Ascending, DistinctEvents, DistinctKeys, Latest, Ids;
  }

  /**
   A poll whose cursor stands at one event shows a later event unless the first dropped its
   fraction within that event's second, or 50 events sort behind the later one.
   */
  lemma LaterEventIsShownIff(
    table: seq<AuditEvent>, tenantId: string, stamp: AuditEvent -> Instant, k: nat, j: nat)
    requires Recorded(TenantLog(table, tenantId), stamp) && k < j < |TenantLog(table, tenantId)|
    ensures var log := TenantLog(table, tenantId);
            && (log[j] in PendingEvents(table, tenantId, Some(log[k].id)) <==>
                  !FractionDropped(stamp(log[k]), stamp(log[j]))
                  && |Where(log, SortsBehind(log[j], EventKey))| < WINDOW)
            && (|log| <= WINDOW ==> |Where(log, SortsBehind(log[j], EventKey))| < WINDOW)
  {
    hide FractionDropped, Where;
    var log := TenantLog(table, tenantId);
    StampsGiveDistinctKeys(log, EventKey, stamp);
    StepsBack(log, EventKey, stamp, k, j);
    TextLessIsStrict(EventKey(log[k]), EventKey(log[j]));
    LaterTextIsShownIff(log, k, j);
    hide OrderBy, Stamped, ClockAdvances, DistinctEvents, Latest, EventsAfterCursor, TextLess;
  }

  // ---------------------------------------------------------------- polls in a row

  /** The cursor a connection is left with: the last event of the listing. */
  function CursorOf(log: seq<AuditEvent>): Option<string> {
    LastId(OrderBy(log, EventKey))
  }

  /** What the next poll shows when `before` was the tenant's log at the previous one. */
  function NextPending(before: seq<AuditEvent>, log: seq<AuditEvent>): seq<AuditEvent> {
    var recent := Latest(OrderBy(log, EventKey), WINDOW);
    recent[EventsAfterCursor(Ids(recent), CursorOf(before))..]
  }

  predicate SortsBehindAll(before: seq<AuditEvent>, e: AuditEvent) {
    forall k | 0 <= k < |before| :: TextLess(EventKey(before[k]), EventKey(e))
  }

  /** Fewer than 50 events sort behind the event. */
  predicate InWindow(log: seq<AuditEvent>, e: AuditEvent) {
    |Where(log, SortsBehind(e, EventKey))| < WINDOW
  }

  lemma GreatestOf(log: seq<AuditEvent>) returns (g: nat)
    requires DistinctKeys(log, EventKey) && log != []
    ensures g < |log| && OrderBy(log, EventKey) != [] && CursorOf(log) == Some(log[g].id)
    ensures forall k | 0 <= k < |log| && k != g :: TextLess(EventKey(log[k]), EventKey(log[g]))
  {
    hide TextLess, OrderBy;
    var listed := OrderBy(log, EventKey);
    OrderBySorts(log, EventKey);
    OrderByAscends(log, EventKey);
    assert |multiset(listed)| == |listed| && |multiset(log)| == |log|;
    var last := listed[|listed| - 1];
    SameMember(listed, log, last);
    g :| 0 <= g < |log| && log[g] == last;
    forall k | 0 <= k < |log| && k != g ensures TextLess(EventKey(log[k]), EventKey(log[g])) {
      SameMember(log, listed, log[k]);
      var p :| 0 <= p < |listed| && listed[p] == log[k];
      TextLessIsStrict(EventKey(log[k]), EventKey(log[g]));
    }
  }

  lemma BehindGreatest(before: seq<AuditEvent>, g: nat, e: AuditEvent)
    requires g < |before|
    requires forall k | 0 <= k < |before| && k != g :: TextLess(EventKey(before[k]), EventKey(before[g]))
    ensures SortsBehindAll(before, e) <==> TextLess(EventKey(before[g]), EventKey(e))
  {
    hide TextLess;
    if TextLess(EventKey(before[g]), EventKey(e)) {
      forall k | 0 <= k < |before| ensures TextLess(EventKey(before[k]), EventKey(e)) {
        if k != g {
          TextLessIsTransitive(EventKey(before[k]), EventKey(before[g]), EventKey(e));
        }
      }
    }
  }

  lemma FirstPending(log: seq<AuditEvent>, j: nat)
    requires DistinctKeys(log, EventKey) && DistinctEvents(log) && j < |log|
    ensures log[j] in Latest(OrderBy(log, EventKey), WINDOW) <==> InWindow(log, log[j])
  {
    hide TextLess, OrderBy, Where;
    var listed := OrderBy(log, EventKey);
    var p := PlaceOf(log, EventKey, j);
    ListingIsDistinct(log);
    PlaceInSuffix(listed, if |listed| <= WINDOW then 0 else |listed| - WINDOW, p);
    assert listed[0..] == listed;
    hide DistinctEvents, DistinctKeys;
  }

  /** A poll shows the events in the window that sort behind everything there was at the last poll. */
  lemma PendingIff(before: seq<AuditEvent>, log: seq<AuditEvent>, j: nat)
    requires DistinctKeys(log, EventKey) && DistinctEvents(log) && before <= log && j < |log|
    ensures log[j] in NextPending(before, log) <==> SortsBehindAll(before, log[j]) && InWindow(log, log[j])
  {
    hide TextLess, OrderBy, Where, EventsAfterCursor, Latest;
    if before == [] {
      FirstPending(log, j);
      NoCursorStartsOver(log);
    } else {
      assert DistinctKeys(before, EventKey);
      var g := GreatestOf(before);
      BehindGreatest(before, g, log[j]);
      assert log[g] == before[g];
      LaterTextIsShownIff(log, g, j);
    }
    hide DistinctKeys, DistinctEvents, SortsBehindAll;
  }

  lemma NoCursorStartsOver(log: seq<AuditEvent>)
    ensures NextPending([], log) == Latest(OrderBy(log, EventKey), WINDOW)
  {
    assert OrderBy<AuditEvent>([], EventKey) == [];
  }

  /** A poll shows the end of the listing; it shows nothing only where its cursor is the last event. */
  lemma NextIsSuffix(before: seq<AuditEvent>, log: seq<AuditEvent>) returns (m: nat)
    requires DistinctKeys(log, EventKey) && DistinctEvents(log) && before <= log
    ensures m <= |OrderBy(log, EventKey)| && NextPending(before, log) == OrderBy(log, EventKey)[m..]
    ensures m == |OrderBy(log, EventKey)| ==> CursorOf(before) == CursorOf(log)
  {
    hide TextLess, EventsAfterCursor, Insert;
    var listed := OrderBy(log, EventKey);
    if before == [] {
      NoCursorStartsOver(log);
      m := if |listed| <= WINDOW then 0 else |listed| - WINDOW;
      assert listed[0..] == listed;
      EmptyListing();
    } else {
      hide OrderBy;
      assert DistinctKeys(before, EventKey);
      var g := GreatestOf(before);
      assert log[g] == before[g];
      var c := PlaceOf(log, EventKey, g);
      ListingIsDistinct(log);
      ShownSuffix(listed, c);
      m := StartAfter(|listed|, c);
    }
    hide DistinctEvents, DistinctKeys, Latest, Ids;
  }

  /** A poll leaves the cursor at the last event listed. */
  lemma PendingIsSuffix(before: seq<AuditEvent>, log: seq<AuditEvent>)
    requires DistinctKeys(log, EventKey) && DistinctEvents(log) && before <= log
    ensures Ascending(NextPending(before, log), EventKey)
    ensures forall e <- NextPending(before, log) :: e in log
    ensures NextCursor(CursorOf(before), NextPending(before, log)) == CursorOf(log)
  {
    hide TextLess, OrderBy, EventsAfterCursor, Latest, Ids;
    var listed := OrderBy(log, EventKey);
    OrderByAscends(log, EventKey);
    OrderBySorts(log, EventKey);
    var m := NextIsSuffix(before, log);
    hide NextPending, DistinctEvents, DistinctKeys;
    var pending := NextPending(before, log);
    assert pending != [] ==> pending[|pending| - 1] == listed[|listed| - 1];
    forall e <- pending ensures e in log {
      SameMember(listed, log, e);
    }
  }

  lemma EmptyListing()
    ensures OrderBy<AuditEvent>([], EventKey) == []
  {
  }

  // ---------------------------------------------------------------- a whole connection

  predicate Orderly(tables: seq<seq<AuditEvent>>, tenantId: string, stamp: AuditEvent -> Instant) {
    tables != [] && AppendOnly(tables) && Recorded(TenantLog(tables[|tables| - 1], tenantId), stamp)
  }

  /** The tenant's `j`-th event is new at poll `i`. */
  predicate NewAt(tables: seq<seq<AuditEvent>>, tenantId: string, i: int, j: int) {
    0 < i < |tables| && |TenantLog(tables[i - 1], tenantId)| <= j < |TenantLog(tables[i], tenantId)|
  }

  /**
   Nothing recorded before the previous poll dropped its fraction within the event's second, and
   fewer than 50 events sort behind it.
   */
  predicate ShownAt(tables: seq<seq<AuditEvent>>, tenantId: string, stamp: AuditEvent -> Instant, i: int, j: int)
    requires NewAt(tables, tenantId, i, j)
  {
    var before, log := TenantLog(tables[i - 1], tenantId), TenantLog(tables[i], tenantId);
    && (forall k | 0 <= k < |before| :: !FractionDropped(stamp(before[k]), stamp(log[j])))
    && InWindow(log, log[j])
  }

  lemma {:induction false} LogGrows(tables: seq<seq<AuditEvent>>, tenantId: string, i: nat, n: nat)
    requires AppendOnly(tables) && i <= n < |tables|
    ensures TenantLog(tables[i], tenantId) <= TenantLog(tables[n], tenantId)
  {
    if i < n {
      LogGrows(tables, tenantId, i, n - 1);
      WherePrefix(tables[n - 1], tables[n], EventOfTenant(tenantId));
    }
  }

  lemma RecordedPrefix(before: seq<AuditEvent>, log: seq<AuditEvent>, stamp: AuditEvent -> Instant)
    requires before <= log && Recorded(log, stamp)
    ensures Recorded(before, stamp)
  {
    assert forall k | 0 <= k < |before| :: before[k] == log[k];
  }

  lemma OrderlyFront(tables: seq<seq<AuditEvent>>, tenantId: string, stamp: AuditEvent -> Instant)
    requires Orderly(tables, tenantId, stamp) && |tables| > 1
    ensures Orderly(tables[..|tables| - 1], tenantId, stamp)
  {
    var n := |tables| - 1;
    LogGrows(tables, tenantId, n - 1, n);
    RecordedPrefix(TenantLog(tables[n - 1], tenantId), TenantLog(tables[n], tenantId), stamp);
    hide Recorded, TenantLog;
  }

  /** On a forward clock only a dropped fraction keeps an earlier event from sorting first. */
  lemma BehindAllIff(before: seq<AuditEvent>, log: seq<AuditEvent>, stamp: AuditEvent -> Instant, j: nat)
    requires before <= log && Recorded(log, stamp) && j < |log|
    ensures SortsBehindAll(before, log[j]) <==>
              |before| <= j && forall k | 0 <= k < |before| :: !FractionDropped(stamp(before[k]), stamp(log[j]))
  {
    hide TextLess, FractionDropped, Earlier;
    if j < |before| {
      TextLessIsStrict(EventKey(log[j]), EventKey(log[j]));
      assert before[j] == log[j];
    } else {
      StampsGiveDistinctKeys(log, EventKey, stamp);
      forall k | 0 <= k < |before|
        ensures TextLess(EventKey(before[k]), EventKey(log[j])) <==> !FractionDropped(stamp(before[k]), stamp(log[j]))
      {
        assert before[k] == log[k];
        StepsBack(log, EventKey, stamp, k, j);
        TextLessIsStrict(EventKey(log[k]), EventKey(log[j]));
      }
      hide Stamped, ClockAdvances, DistinctEvents, DistinctKeys;
    }
  }

  lemma PollIsNext(table: seq<AuditEvent>, tenantId: string, before: seq<AuditEvent>)
    ensures PendingEvents(table, tenantId, CursorOf(before)) == NextPending(before, TenantLog(table, tenantId))
    ensures LastId(ListRecentEventsForTenant(table, tenantId, WINDOW)) == CursorOf(TenantLog(table, tenantId))
  {
    hide OrderBy, Where;
  }

  /** The cursor after any number of polls is the last event of the listing, whatever was shown. */
  lemma {:induction false} CursorIsLastListed(
    tables: seq<seq<AuditEvent>>, tenantId: string, stamp: AuditEvent -> Instant)
    requires Orderly(tables, tenantId, stamp)
    ensures Played(tables, tenantId).cursor == CursorOf(TenantLog(tables[|tables| - 1], tenantId))
  {
    var n := |tables| - 1;
    assert n >= 0;
    hide Orderly, TenantLog, PendingEvents, NextPending, CursorOf, NextCursor, LastId, ListRecentEventsForTenant;
    PollIsNext(tables[n], tenantId, []);
    if n > 0 {
      OrderlyFront(tables, tenantId, stamp);
      CursorIsLastListed(tables[..n], tenantId, stamp);
      PollShows(tables, tenantId, stamp);
    }
  }

  /** The last poll of a connection. */
  lemma PollShows(tables: seq<seq<AuditEvent>>, tenantId: string, stamp: AuditEvent -> Instant)
    requires Orderly(tables, tenantId, stamp) && |tables| > 1
    ensures var n := |tables| - 1;
            var before, log := TenantLog(tables[n - 1], tenantId), TenantLog(tables[n], tenantId);
            var pending := PendingEvents(tables[n], tenantId, CursorOf(before));
            && before <= log && Ascending(pending, EventKey) && (forall e <- pending :: e in log)
            && NextCursor(CursorOf(before), pending) == CursorOf(log)
            && (forall j | 0 <= j < |log| ::
                  log[j] in pending <==> SortsBehindAll(before, log[j]) && InWindow(log, log[j]))
            && (forall j | 0 <= j < |log| ::
                  log[j] in pending <==> NewAt(tables, tenantId, n, j) && ShownAt(tables, tenantId, stamp, n, j))
  {
    hide TenantLog, PendingEvents, NextPending, CursorOf, NextCursor, SortsBehindAll, InWindow, FractionDropped;
    var n := |tables| - 1;
    var before, log := TenantLog(tables[n - 1], tenantId), TenantLog(tables[n], tenantId);
    LogGrows(tables, tenantId, n - 1, n);
    StampsGiveDistinctKeys(log, EventKey, stamp);
    PollIsNext(tables[n], tenantId, before);
    PendingIsSuffix(before, log);
    forall j: nat | j < |log|
      ensures log[j] in NextPending(before, log) <==> SortsBehindAll(before, log[j]) && InWindow(log, log[j])
      ensures SortsBehindAll(before, log[j]) <==>
                |before| <= j && forall k | 0 <= k < |before| :: !FractionDropped(stamp(before[k]), stamp(log[j]))
    {
      PendingIff(before, log, j);
      BehindAllIff(before, log, stamp, j);
    }
    hide Recorded, AppendOnly, Ascending, DistinctKeys;
  }

  lemma ShowsInOrder(before: seq<AuditEvent>, shown: seq<AuditEvent>, pending: seq<AuditEvent>)
    requires Ascending(shown, EventKey) && Ascending(pending, EventKey)
    requires forall e <- shown :: e in before
    requires forall e <- pending :: SortsBehindAll(before, e)
    ensures Ascending(shown + pending, EventKey)
  {
    hide TextLess;
    forall p, q | 0 <= p < |shown| && 0 <= q < |pending| ensures TextLess(EventKey(shown[p]), EventKey(pending[q])) {
      assert shown[p] in before && pending[q] in pending;
      var k :| 0 <= k < |before| && before[k] == shown[p];
    }
  }

  lemma SeenIsNotPending(before: seq<AuditEvent>, k: nat)
    requires k < |before|
    ensures !SortsBehindAll(before, before[k])
  {
    TextLessIsStrict(EventKey(before[k]), EventKey(before[k]));
  }

  lemma NewWasNotSeen(before: seq<AuditEvent>, log: seq<AuditEvent>, j: nat)
    requires before <= log && DistinctEvents(log) && |before| <= j < |log|
    ensures log[j] !in before
  {
    forall k | 0 <= k < |before| ensures before[k] != log[j] {
      assert before[k] == log[k] && log[k].id != log[j].id;
    }
  }

  /** An event is shown at the poll it is new at, if it is shown there, and at no other. */
  ghost predicate ShowsWhatIsShown(
    tables: seq<seq<AuditEvent>>, tenantId: string, stamp: AuditEvent -> Instant, emitted: seq<AuditEvent>)
  {
    forall i, j | NewAt(tables, tenantId, i, j) ::
      TenantLog(tables[i], tenantId)[j] in emitted <==> ShownAt(tables, tenantId, stamp, i, j)
  }

  predicate ShowsNothingOld(tables: seq<seq<AuditEvent>>, tenantId: string, emitted: seq<AuditEvent>)
    requires tables != []
  {
    forall e <- TenantLog(tables[0], tenantId) :: e !in emitted
  }

  /**
   On a clock that only moves forward, over any polls and growth: the stream never shows an event
   twice, nor one that was there when it connected; and it shows any other exactly if the poll at
   which that is new does. What a poll misses is never shown later.
   */
  lemma {:induction false} StreamOnForwardClock(
    tables: seq<seq<AuditEvent>>, tenantId: string, stamp: AuditEvent -> Instant)
    requires Orderly(tables, tenantId, stamp)
    ensures var emitted := Played(tables, tenantId).emitted;
            && Ascending(emitted, EventKey)
            && (forall e <- emitted :: e in TenantLog(tables[|tables| - 1], tenantId))
            && ShowsWhatIsShown(tables, tenantId, stamp, emitted)
            && ShowsNothingOld(tables, tenantId, emitted)
  {
    var n := |tables| - 1;
    assert n >= 0;
    hide TenantLog, PendingEvents, CursorOf, NextCursor, ShownAt, SortsBehindAll, InWindow, Ascending;
    if n > 0 {
      var front := tables[..n];
      var before, log := TenantLog(tables[n - 1], tenantId), TenantLog(tables[n], tenantId);
      var shown, pending := Played(front, tenantId).emitted, PendingEvents(tables[n], tenantId, CursorOf(before));
      OrderlyFront(tables, tenantId, stamp);
      StreamOnForwardClock(front, tenantId, stamp);
      CursorIsLastListed(front, tenantId, stamp);
      PollShows(tables, tenantId, stamp);
      assert Played(tables, tenantId).emitted == shown + pending;
      ShowsInOrder(before, shown, pending);
      LogGrows(tables, tenantId, 0, n - 1);
      PollAdds(tables, tenantId, stamp, shown, pending);
    }
  }

  lemma PollAdds(
    tables: seq<seq<AuditEvent>>, tenantId: string, stamp: AuditEvent -> Instant,
    shown: seq<AuditEvent>, pending: seq<AuditEvent>)
    requires Orderly(tables, tenantId, stamp) && |tables| > 1
    requires var n := |tables| - 1;
             var before, log := TenantLog(tables[n - 1], tenantId), TenantLog(tables[n], tenantId);
             && before <= log && (forall e <- shown :: e in before)
             && (forall j | 0 <= j < |log| :: log[j] in pending ==> SortsBehindAll(before, log[j]))
             && (forall j | 0 <= j < |log| ::
                   log[j] in pending <==> NewAt(tables, tenantId, n, j) && ShownAt(tables, tenantId, stamp, n, j))
             && ShowsWhatIsShown(tables[..n], tenantId, stamp, shown)
             && ShowsNothingOld(tables[..n], tenantId, shown)
    ensures ShowsWhatIsShown(tables, tenantId, stamp, shown + pending)
    ensures ShowsNothingOld(tables, tenantId, shown + pending)
  {
    hide TenantLog, SortsBehindAll, InWindow, FractionDropped, Stamped, ClockAdvances;
    var n := |tables| - 1;
    var before, log := TenantLog(tables[n - 1], tenantId), TenantLog(tables[n], tenantId);
    forall i, j | NewAt(tables, tenantId, i, j)
      ensures TenantLog(tables[i], tenantId)[j] in shown + pending <==> ShownAt(tables, tenantId, stamp, i, j)
    {
      if i == n {
        NewWasNotSeen(before, log, j);
      } else {
        LogGrows(tables, tenantId, i, n - 1);
        assert NewAt(tables[..n], tenantId, i, j);
        assert ShownAt(tables[..n], tenantId, stamp, i, j) <==> ShownAt(tables, tenantId, stamp, i, j);
        SeenIsNotPending(before, j);
        assert log[j] == before[j] == TenantLog(tables[i], tenantId)[j];
      }
    }
    LogGrows(tables, tenantId, 0, n - 1);
    forall e <- TenantLog(tables[0], tenantId) ensures e !in shown + pending {
      var k :| 0 <= k < |TenantLog(tables[0], tenantId)| && TenantLog(tables[0], tenantId)[k] == e;
      assert before[k] == e == log[k];
      SeenIsNotPending(before, k);
    }
  }
}
