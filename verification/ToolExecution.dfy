/**
 Idempotent tool execution: look the operation id up, run the handler, record the result.

 `ToolService.Execute` is one call by itself. `World` interleaves the three steps of any number
 of concurrent calls, and of anything else that writes to the tables.
 */
module ToolExecution {
  import opened Text
  import opened Timestamps
  import opened Records
  import opened Store
  import opened SqliteGateway

  datatype ToolResult = ToolResult(toolName: string, success: bool, output: JsonObject, executedAt: Instant)

  datatype Request = Request(
    tenantId: string, runId: string, actorUserId: string, toolName: string, payload: JsonObject, operationId: string)

  /** The result stored in an earlier call's event; the tool name is the caller's own. */
  function StoredResult(toolName: string, e: AuditEvent): Result<ToolResult> {
    match e.body
    case ToolExecuted(_, _, result, success, executedAt) =>
      if !result.Object? then Failure(NotFoundError)
      else if !executedAt.Str? then Failure(NotFoundError)
      else
        (match ParseTimestamp(executedAt.s)
         case Some(t) => Success(ToolResult(toolName, success, result.fields, t))
         case None => Failure(ValueError))
    case _ => Failure(KeyError)
  }

  function ResultBody(r: Request, result: ToolResult): EventBody {
    ToolExecuted(r.toolName, r.payload, Object(result.output), result.success, Str(ToIso8601(result.executedAt)))
  }

  function ResultEvent(r: Request, result: ToolResult, draw: Draw): AuditEvent {
    AuditEvent(draw.id, r.tenantId, Some(r.runId), Some(r.actorUserId), ResultBody(r, result),
               Some(r.operationId), draw.at)
  }

  /** What is stored for a result reads back as that result. */
  lemma ResultRoundTrip(r: Request, result: ToolResult, draw: Draw)
    requires result.toolName == r.toolName
    ensures StoredResult(r.toolName, ResultEvent(r, result, draw)) == Success(result)
  {
    RoundTrip(result.executedAt);
    hide ToIso8601, ParseTimestamp;
  }

  type Handler = JsonObject -> Result<JsonObject>

  function Outcome(handlers: map<string, Handler>, r: Request): Result<JsonObject> {
    if r.toolName in handlers then handlers[r.toolName](r.payload) else Failure(NotFoundError)
  }

  class ToolService {
    const gateway: Gateway
    var handlers: map<string, Handler>

    constructor (gateway: Gateway)
      ensures this.gateway == gateway && handlers == map[]
    {
      this.gateway := gateway;
      handlers := map[];
    }

    method Register(name: string, handler: Handler)
      modifies this
      ensures handlers == old(handlers)[name := handler]
    {
      handlers := handlers[name := handler];
    }

    /** `now` is when the handler returned; `draw` belongs to the audit row. */
    method Execute(r: Request, now: Instant, draw: Draw) returns (result: Result<ToolResult>)
      requires gateway.Valid()
      modifies gateway
      ensures gateway.Valid()
      ensures var w := Alone(old(gateway.Tables()), r, Outcome(handlers, r), now, draw, old(gateway.remaining) > 0);
              && gateway.Tables() == w.store
              && match w.callers[0].phase
                 case Returned(x) => result == Success(x)
                 case Raised(e) => result == Failure(e)
                 case _ => result == Failure(StorageError)
      ensures FindEventByOperationId(old(gateway.auditEvents), r.operationId).None? && r.runId in old(gateway.runs)
              && r.toolName in handlers && old(gateway.remaining) > 0 ==>
              match handlers[r.toolName](r.payload)
              case Failure(e) => result == Failure(e) && gateway.Tables() == old(gateway.Tables())
              case Success(output) =>
                && result == Success(ToolResult(r.toolName, true, output, now))
                && gateway.Tables() == old(gateway.Tables()).(auditEvents := old(gateway.auditEvents) + [
                     AuditEvent(draw.id, r.tenantId, Some(r.runId), Some(r.actorUserId),
                                ToolExecuted(r.toolName, r.payload, Object(output), true, Str(ToIso8601(now))),
                                Some(r.operationId), draw.at)])
      ensures gateway.log == old(gateway.log) || (result.Success? &&
              gateway.log == old(gateway.log) + [InsertEvent(ResultEvent(r, result.value, draw))])
    {
      hide ToIso8601, ParseTimestamp, Referential;
      var existing := gateway.FindByOperationId(r.operationId);
      if existing.Some? {
        return StoredResult(r.toolName, existing.value);
      }
      if r.toolName !in handlers {
        return Failure(NotFoundError);
      }
      var output := handlers[r.toolName](r.payload);
      if output.Failure? {
        return Failure(output.error);
      }
      var executed := ToolResult(r.toolName, true, output.value, now);
      var recorded := gateway.AppendEvent(
        draw, r.tenantId, Some(r.runId), Some(r.actorUserId), ResultBody(r, executed), Some(r.operationId));
      if recorded.Failure? {
        return Failure(recorded.error);
      }
      result := Success(executed);
    }
  }

  // ---------------------------------------------------------------- concurrent callers

  datatype Phase =
    | Started
    | Missed // the lookup found no row
    | Handled(result: ToolResult) // the handler has run, nothing is recorded yet
    | Returned(result: ToolResult)
    | Raised(error: Error)

  datatype Caller = Caller(request: Request, phase: Phase)

  datatype World = World(store: Store, callers: map<nat, Caller>)

  /** One atomic step; a step of a caller that is not in the right phase does nothing. */
  datatype Step =
    | Call(who: nat, request: Request)
    | Lookup(who: nat)
    | Handle(who: nat, outcome: Result<JsonObject>, now: Instant)
    | RecordResult(who: nat, draw: Draw)
    | WriteElsewhere(write: Write)

  function InPhase(w: World, who: nat, phase: Phase): World
    requires who in w.callers
  {
    w.(callers := w.callers[who := w.callers[who].(phase := phase)])
  }

  function Take(w: World, step: Step): World {
    match step
    case Call(who, request) =>
      if who in w.callers then w else w.(callers := w.callers[who := Caller(request, Started)])
    case Lookup(who) =>
      if who !in w.callers || w.callers[who].phase != Started then w
      else
        var r := w.callers[who].request;
        InPhase(w, who, match FindEventByOperationId(w.store.auditEvents, r.operationId)
          case None => Missed
          case Some(e) =>
            (match StoredResult(r.toolName, e)
             case Success(result) => Returned(result)
             case Failure(error) => Raised(error)))
    case Handle(who, outcome, now) =>
      if who !in w.callers || w.callers[who].phase != Missed then w
      else
        InPhase(w, who, match outcome
          case Success(output) => Handled(ToolResult(w.callers[who].request.toolName, true, output, now))
          case Failure(error) => Raised(error))
    case RecordResult(who, draw) =>
      if who !in w.callers || !w.callers[who].phase.Handled? then w
      else
        var r, result := w.callers[who].request, w.callers[who].phase.result;
        (match InsertEventError(w.store, Some(r.runId), Some(r.operationId))
         case Some(error) => InPhase(w, who, Raised(error))
         case None =>
           InPhase(w, who, Returned(result)).(store := Apply(w.store, InsertEvent(ResultEvent(r, result, draw)))))
    case WriteElsewhere(write) =>
      if write.InsertEvent? && InsertEventError(w.store, write.event.runId, write.event.operationId).Some? then w
      else w.(store := Apply(w.store, write))
  }

  function TakeAll(w: World, steps: seq<Step>): World {
    if steps == [] then w else Take(TakeAll(w, steps[..|steps| - 1]), steps[|steps| - 1])
  }

  /** One caller whose steps nobody interleaves with; without storage its result is never recorded. */
  function Alone(s: Store, r: Request, outcome: Result<JsonObject>, now: Instant, draw: Draw, storage: bool): (w: World)
    ensures 0 in w.callers
  {
    var called := Take(World(s, map[]), Call(0, r));
    var handled := Take(Take(called, Lookup(0)), Handle(0, outcome, now));
    if storage || InsertEventError(s, Some(r.runId), Some(r.operationId)).Some? then
      Take(handled, RecordResult(0, draw))
    else handled
  }

  /** What one caller gets for a new operation id, and what it leaves in the tables. */
  lemma NewOperation(
    s: Store, r: Request, outcome: Result<JsonObject>, now: Instant, draw: Draw, storage: bool)
    requires forall e <- s.auditEvents :: e.operationId != Some(r.operationId)
    ensures var w := Alone(s, r, outcome, now, draw, storage);
            match outcome
            case Failure(e) => w.callers[0].phase == Raised(e) && w.store == s
            case Success(output) =>
              var result := ToolResult(r.toolName, true, output, now);
              if r.runId !in s.runs then w.callers[0].phase == Raised(IntegrityError) && w.store == s
              else if !storage then w.callers[0].phase == Handled(result) && w.store == s
              else
                && w.callers[0].phase == Returned(result)
                && w.store == Store(s.runs, s.checkpoints, s.approvals, s.auditEvents + [
                     AuditEvent(draw.id, r.tenantId, Some(r.runId), Some(r.actorUserId),
                                ToolExecuted(r.toolName, r.payload, Object(output), true, Str(ToIso8601(now))),
                                Some(r.operationId), draw.at)])
  {
    hide ToIso8601, ParseTimestamp;
  }

  /** What one caller gets when the operation's row is there: what that spells out, or the reason it does not. */
  lemma KnownOperation(
    s: Store, r: Request, outcome: Result<JsonObject>, now: Instant, draw: Draw, storage: bool, e: AuditEvent)
    requires OneRowPerOperation(s.auditEvents) && e in s.auditEvents && e.operationId == Some(r.operationId)
    ensures var w := Alone(s, r, outcome, now, draw, storage);
            && w.store == s
            && match e.body
               case ToolExecuted(_, _, Object(fields), success, Str(text)) =>
                 (match ParseTimestamp(text)
                  case Some(t) => w.callers[0].phase == Returned(ToolResult(r.toolName, success, fields, t))
                  case None => w.callers[0].phase == Raised(ValueError))
               case ToolExecuted(_, _, _, _, _) => w.callers[0].phase == Raised(NotFoundError)
               case _ => w.callers[0].phase == Raised(KeyError)
  {
    hide ToIso8601, ParseTimestamp, ResultEvent;
    var found := FindEventByOperationId(s.auditEvents, r.operationId).value;
    SameOperation(s.auditEvents, e, found);
    hide OneRowPerOperation;
  }

  lemma SameOperation(events: seq<AuditEvent>, a: AuditEvent, b: AuditEvent)
    requires OneRowPerOperation(events) && a in events && b in events
    requires a.operationId.Some? && a.operationId == b.operationId
    ensures a == b
  {
    var i :| 0 <= i < |events| && events[i] == a;
    var j :| 0 <= j < |events| && events[j] == b;
  }

  /** A tool that is not registered is not found. */
  lemma UnknownTool(handlers: map<string, Handler>, r: Request)
    ensures r.toolName !in handlers ==> Outcome(handlers, r) == Failure(NotFoundError)
    ensures r.toolName in handlers ==> Outcome(handlers, r) == handlers[r.toolName](r.payload)
  {
  }

  // ---------------------------------------------------------------- one row per operation

  /** The unique index on `operation_id`. */
  predicate OneRowPerOperation(events: seq<AuditEvent>) {
    forall i, j | 0 <= i < j < |events| ::
      events[i].operationId.None? || events[i].operationId != events[j].operationId
  }

  /** The result is what the operation's row says. */
  predicate Told(result: ToolResult, operationId: string, events: seq<AuditEvent>) {
    && FindEventByOperationId(events, operationId).Some?
    && StoredResult(result.toolName, FindEventByOperationId(events, operationId).value) == Success(result)
  }

  predicate Idempotent(w: World) {
    && OneRowPerOperation(w.store.auditEvents)
    && forall who <- w.callers ::
         && (w.callers[who].phase.Handled? ==> w.callers[who].phase.result.toolName == w.callers[who].request.toolName)
         && (w.callers[who].phase.Returned? ==>
              Told(w.callers[who].phase.result, w.callers[who].request.operationId, w.store.auditEvents))
  }

  /** Rows are only added, so the row an operation id finds never changes. */
  lemma {:induction false} FoundStaysFound(events: seq<AuditEvent>, e: AuditEvent, operationId: string)
    ensures FindEventByOperationId(events + [e], operationId) ==
            if FindEventByOperationId(events, operationId).Some? then FindEventByOperationId(events, operationId)
            else if e.operationId == Some(operationId) then Some(e) else None
  {
    if events == [] {
      assert [e][1..] == [];
      assert events + [e] == [e];
    } else {
      FoundStaysFound(events[1..], e, operationId);
      assert (events + [e])[1..] == events[1..] + [e];
    }
  }

  lemma AddedRowIsUnique(s: Store, e: AuditEvent)
    requires OneRowPerOperation(s.auditEvents) && InsertEventError(s, e.runId, e.operationId).None?
    ensures OneRowPerOperation(s.auditEvents + [e])
  {
  }

  lemma AddedRowKeepsTold(events: seq<AuditEvent>, e: AuditEvent, result: ToolResult, operationId: string)
    requires Told(result, operationId, events)
    ensures Told(result, operationId, events + [e])
  {
    FoundStaysFound(events, e, operationId);
  }

  lemma AddedRowKeepsIdempotent(w: World, e: AuditEvent)
    requires Idempotent(w) && InsertEventError(w.store, e.runId, e.operationId).None?
    ensures Idempotent(w.(store := Apply(w.store, InsertEvent(e))))
  {
    AddedRowIsUnique(w.store, e);
    hide Told, OneRowPerOperation, InsertEventError;
    forall who <- w.callers | w.callers[who].phase.Returned?
      ensures Told(w.callers[who].phase.result, w.callers[who].request.operationId, w.store.auditEvents + [e])
    {
      AddedRowKeepsTold(w.store.auditEvents, e, w.callers[who].phase.result, w.callers[who].request.operationId);
    }
  }

  lemma ReturningKeepsIdempotent(w: World, who: nat, result: ToolResult)
    requires Idempotent(w) && who in w.callers
    requires Told(result, w.callers[who].request.operationId, w.store.auditEvents)
    ensures Idempotent(InPhase(w, who, Returned(result)))
  {
    hide Told, OneRowPerOperation;
  }

  lemma ElsewhereKeepsIdempotent(w: World, write: Write)
    requires Idempotent(w)
    ensures Idempotent(Take(w, WriteElsewhere(write)))
  {
    if write.InsertEvent? && InsertEventError(w.store, write.event.runId, write.event.operationId).None? {
      AddedRowKeepsIdempotent(w, write.event);
    }
    hide Told, OneRowPerOperation, InsertEventError;
  }

  lemma RecordKeepsIdempotent(w: World, who: nat, draw: Draw)
    requires Idempotent(w) && who in w.callers && w.callers[who].phase.Handled?
    ensures Idempotent(Take(w, RecordResult(who, draw)))
  {
    var r, result := w.callers[who].request, w.callers[who].phase.result;
    var e := ResultEvent(r, result, draw);
    if InsertEventError(w.store, Some(r.runId), Some(r.operationId)).None? {
      var recorded := w.(store := Apply(w.store, InsertEvent(e)));
      assert Told(result, r.operationId, w.store.auditEvents + [e]) by {
        ResultRoundTrip(r, result, draw);
        FoundStaysFound(w.store.auditEvents, e, r.operationId);
      }
      hide Idempotent, Told, ResultEvent;
      AddedRowKeepsIdempotent(w, e);
      ReturningKeepsIdempotent(recorded, who, result);
      assert Take(w, RecordResult(who, draw)) == InPhase(recorded, who, Returned(result));
    }
    hide Told, OneRowPerOperation, ResultEvent, InsertEventError;
  }

  lemma StepKeepsIdempotent(w: World, step: Step)
    requires Idempotent(w)
    ensures Idempotent(Take(w, step))
  {
    match step
    case RecordResult(who, draw) =>
      if who in w.callers && w.callers[who].phase.Handled? {
        RecordKeepsIdempotent(w, who, draw);
      }
    case WriteElsewhere(write) => ElsewhereKeepsIdempotent(w, write);
    case _ => hide OneRowPerOperation, ParseTimestamp;
  }

  /** Under every interleaving there is one row per operation id, and every returned result is that row's. */
  lemma {:induction false} InterleavingsAreIdempotent(w: World, steps: seq<Step>)
    requires Idempotent(w)
    ensures Idempotent(TakeAll(w, steps))
  {
    if steps != [] {
      InterleavingsAreIdempotent(w, steps[..|steps| - 1]);
      StepKeepsIdempotent(TakeAll(w, steps[..|steps| - 1]), steps[|steps| - 1]);
    }
    hide Idempotent;
  }

  /** All calls that return for one operation id return the same output, success flag and timestamp. */
  lemma CallersAgree(s: Store, steps: seq<Step>, a: nat, b: nat)
    requires OneRowPerOperation(s.auditEvents)
    requires var w := TakeAll(World(s, map[]), steps);
             && a in w.callers && b in w.callers && w.callers[a].phase.Returned? && w.callers[b].phase.Returned?
             && w.callers[a].request.operationId == w.callers[b].request.operationId
    ensures var w := TakeAll(World(s, map[]), steps);
            var x, y := w.callers[a].phase.result, w.callers[b].phase.result;
            x.output == y.output && x.success == y.success && x.executedAt == y.executedAt
  {
    InterleavingsAreIdempotent(World(s, map[]), steps);
    hide TakeAll, ParseTimestamp, OneRowPerOperation;
  }

  /** A returned result is spelled out in the one row of its operation. */
  lemma ReturnedResultIsStored(s: Store, steps: seq<Step>, who: nat)
    requires OneRowPerOperation(s.auditEvents)
    requires var w := TakeAll(World(s, map[]), steps);
             who in w.callers && w.callers[who].phase.Returned?
    ensures var w := TakeAll(World(s, map[]), steps);
            var r, result := w.callers[who].request, w.callers[who].phase.result;
            exists i :: 0 <= i < |w.store.auditEvents|
              && w.store.auditEvents[i].operationId == Some(r.operationId)
              && StoredResult(result.toolName, w.store.auditEvents[i]) == Success(result)
              && forall j | 0 <= j < |w.store.auditEvents| && j != i ::
                   w.store.auditEvents[j].operationId != Some(r.operationId)
  {
    InterleavingsAreIdempotent(World(s, map[]), steps);
    hide TakeAll, StoredResult;
    var w := TakeAll(World(s, map[]), steps);
    var op := w.callers[who].request.operationId;
    var e := FindEventByOperationId(w.store.auditEvents, op).value;
    var i :| 0 <= i < |w.store.auditEvents| && w.store.auditEvents[i] == e;
  }

  /** A step adds at most one event. */
  lemma StepAddsOneEvent(w: World, step: Step)
    ensures var before, after := w.store.auditEvents, Take(w, step).store.auditEvents;
            after == before || (|after| == |before| + 1 && after[..|before|] == before)
  {
    hide StoredResult, InsertEventError, ResultEvent, FindEventByOperationId;
  }

  lemma {:induction false} RowStays(w: World, steps: seq<Step>, operationId: string)
    requires FindEventByOperationId(w.store.auditEvents, operationId).Some?
    ensures FindEventByOperationId(TakeAll(w, steps).store.auditEvents, operationId) ==
            FindEventByOperationId(w.store.auditEvents, operationId)
  {
    hide Take;
    if steps != [] {
      var before, step := TakeAll(w, steps[..|steps| - 1]), steps[|steps| - 1];
      var events, later := before.store.auditEvents, Take(before, step).store.auditEvents;
      RowStays(w, steps[..|steps| - 1], operationId);
      StepAddsOneEvent(before, step);
      if later != events {
        FoundStaysFound(events, later[|events|], operationId);
        assert later == events + [later[|events|]];
      }
    }
  }

  /**
   A repeated call never reaches the handler again: once a row exists, a call that looks its id
   up at any later time ends there and then with what the row stores, and writes nothing.
   */
  lemma RepeatedCallReadsRow(w: World, steps: seq<Step>, who: nat, request: Request)
    requires FindEventByOperationId(w.store.auditEvents, request.operationId).Some?
    requires who !in TakeAll(w, steps).callers
    ensures var before := TakeAll(w, steps);
            var after := Take(Take(before, Call(who, request)), Lookup(who));
            var row := FindEventByOperationId(w.store.auditEvents, request.operationId).value;
            && after.store == before.store
            && after.callers[who].phase ==
               match StoredResult(request.toolName, row) { case Success(x) => Returned(x) case Failure(e) => Raised(e) }
  {
    RowStays(w, steps, request.operationId);
    hide TakeAll, StoredResult;
  }

  // ---------------------------------------------------------------- how often the handler runs

  predicate RunsHandler(w: World, step: Step, operationId: string) {
    step.Handle? && step.who in w.callers && w.callers[step.who].phase == Missed
    && w.callers[step.who].request.operationId == operationId
  }

  predicate MissesRow(w: World, step: Step, operationId: string) {
    step.Lookup? && step.who in w.callers && w.callers[step.who].phase == Started
    && w.callers[step.who].request.operationId == operationId
    && FindEventByOperationId(w.store.auditEvents, operationId).None?
  }

  function HandlerRuns(w: World, steps: seq<Step>, operationId: string): nat {
    if steps == [] then 0
    else
      var front := steps[..|steps| - 1];
      HandlerRuns(w, front, operationId) +
      if RunsHandler(TakeAll(w, front), steps[|steps| - 1], operationId) then 1 else 0
  }

  function MissedLookups(w: World, steps: seq<Step>, operationId: string): nat {
    if steps == [] then 0
    else
      var front := steps[..|steps| - 1];
      MissedLookups(w, front, operationId) +
      if MissesRow(TakeAll(w, front), steps[|steps| - 1], operationId) then 1 else 0
  }

  /** The callers that found no row and have not run the handler yet. */
  function Waiting(w: World, operationId: string): set<nat> {
    set who | who in w.callers && w.callers[who].phase == Missed && w.callers[who].request.operationId == operationId
  }

  lemma StepMovesWaiting(w: World, step: Step, operationId: string)
    ensures Waiting(Take(w, step), operationId) ==
            if RunsHandler(w, step, operationId) then Waiting(w, operationId) - {step.who}
            else if MissesRow(w, step, operationId) then Waiting(w, operationId) + {step.who}
            else Waiting(w, operationId)
    ensures RunsHandler(w, step, operationId) ==> step.who in Waiting(w, operationId)
    ensures MissesRow(w, step, operationId) ==> step.who !in Waiting(w, operationId)
  {
    hide StoredResult, InsertEventError, ResultEvent, FindEventByOperationId, Apply;
  }

  /** Every handler run uses up one lookup that found no row. */
  lemma {:induction false} RunsUseUpMisses(w: World, steps: seq<Step>, operationId: string)
    ensures HandlerRuns(w, steps, operationId) + |Waiting(TakeAll(w, steps), operationId)| ==
            MissedLookups(w, steps, operationId) + |Waiting(w, operationId)|
  {
    if steps != [] {
      var front, last := steps[..|steps| - 1], steps[|steps| - 1];
      RunsUseUpMisses(w, front, operationId);
      StepMovesWaiting(TakeAll(w, front), last, operationId);
      hide RunsHandler, MissesRow, Waiting, Take;
    }
  }

  /** Once a row exists, the handler runs only for callers that had looked before. */
  lemma {:induction false} RowEndsMisses(w: World, steps: seq<Step>, operationId: string)
    requires FindEventByOperationId(w.store.auditEvents, operationId).Some?
    ensures MissedLookups(w, steps, operationId) == 0
    ensures HandlerRuns(w, steps, operationId) <= |Waiting(w, operationId)|
  {
    RunsUseUpMisses(w, steps, operationId);
    if steps != [] {
      var front := steps[..|steps| - 1];
      RowEndsMisses(w, front, operationId);
      RowStays(w, front, operationId);
      hide HandlerRuns, TakeAll;
    }
  }

  /** Whoever records second is refused, and its handler's output is lost. */
  lemma SecondRecordIsRefused(w: World, who: nat, draw: Draw)
    requires who in w.callers && w.callers[who].phase.Handled?
    requires FindEventByOperationId(w.store.auditEvents, w.callers[who].request.operationId).Some?
    ensures Take(w, RecordResult(who, draw)) == InPhase(w, who, Raised(ConflictError))
  {
  }

  // ---------------------------------------------------------------- a rush of callers

  function Arrivals(r: Request, n: nat): seq<Step> {
    if n == 0 then [] else Arrivals(r, n - 1) + [Call(n - 1, r)] + [Lookup(n - 1)]
  }

  function Runs(n: nat, outcome: Result<JsonObject>, now: Instant): seq<Step> {
    if n == 0 then [] else Runs(n - 1, outcome, now) + [Handle(n - 1, outcome, now)]
  }

  lemma TakeSnoc(w: World, steps: seq<Step>, step: Step)
    ensures TakeAll(w, steps + [step]) == Take(TakeAll(w, steps), step)
    ensures forall op :: HandlerRuns(w, steps + [step], op) ==
              HandlerRuns(w, steps, op) + if RunsHandler(TakeAll(w, steps), step, op) then 1 else 0
  {
    assert (steps + [step])[..|steps|] == steps;
    hide Take, RunsHandler;
  }

  lemma {:induction false} TakeAppend(w: World, xs: seq<Step>, ys: seq<Step>, operationId: string)
    ensures TakeAll(w, xs + ys) == TakeAll(TakeAll(w, xs), ys)
    ensures HandlerRuns(w, xs + ys, operationId) ==
            HandlerRuns(w, xs, operationId) + HandlerRuns(TakeAll(w, xs), ys, operationId)
  {
    if ys == [] {
      assert xs + ys == xs;
    } else {
      var front, last := ys[..|ys| - 1], ys[|ys| - 1];
      TakeAppend(w, xs, front, operationId);
      assert xs + ys == (xs + front) + [last];
      TakeSnoc(w, xs + front, last);
      hide Take, RunsHandler;
    }
  }

  ghost predicate AllWaiting(w: World, s: Store, r: Request, n: nat) {
    w.store == s && (forall who: nat :: who in w.callers <==> who < n)
    && forall who <- w.callers :: w.callers[who] == Caller(r, Missed)
  }

  lemma OneMoreWaits(w: World, s: Store, r: Request, n: nat)
    requires AllWaiting(w, s, r, n) && FindEventByOperationId(s.auditEvents, r.operationId).None?
    ensures AllWaiting(Take(Take(w, Call(n, r)), Lookup(n)), s, r, n + 1)
  {
    hide FindEventByOperationId;
  }

  lemma NobodyWaits(s: Store, r: Request)
    ensures AllWaiting(World(s, map[]), s, r, 0)
  {
  }

  lemma {:induction false} ArrivalsWait(s: Store, r: Request, n: nat)
    requires FindEventByOperationId(s.auditEvents, r.operationId).None?
    ensures AllWaiting(TakeAll(World(s, map[]), Arrivals(r, n)), s, r, n)
  {
    hide FindEventByOperationId, Take, AllWaiting, HandlerRuns;
    if n == 0 {
      NobodyWaits(s, r);
    } else {
      var w, before := World(s, map[]), Arrivals(r, n - 1);
      ArrivalsWait(s, r, n - 1);
      OneMoreWaits(TakeAll(w, before), s, r, n - 1);
      TakeSnoc(w, before, Call(n - 1, r));
      TakeSnoc(w, before + [Call(n - 1, r)], Lookup(n - 1));
    }
  }

  lemma {:induction false} ArrivalsRunNothing(w: World, r: Request, n: nat)
    ensures HandlerRuns(w, Arrivals(r, n), r.operationId) == 0
  {
    hide Take, TakeAll;
    if n > 0 {
      var before := Arrivals(r, n - 1);
      ArrivalsRunNothing(w, r, n - 1);
      TakeSnoc(w, before, Call(n - 1, r));
      TakeSnoc(w, before + [Call(n - 1, r)], Lookup(n - 1));
    }
  }

  /** The callers from `done` to `n` are still waiting. */
  predicate WaitingFrom(w: World, r: Request, n: nat, done: nat) {
    forall who | done <= who < n :: who in w.callers && w.callers[who] == Caller(r, Missed)
  }

  lemma OneMoreRuns(w: World, r: Request, n: nat, done: nat, outcome: Result<JsonObject>, now: Instant)
    requires WaitingFrom(w, r, n, done) && done < n
    ensures RunsHandler(w, Handle(done, outcome, now), r.operationId)
    ensures WaitingFrom(Take(w, Handle(done, outcome, now)), r, n, done + 1)
  {
  }

  lemma {:induction false} WaitingRun(
    w: World, r: Request, n: nat, done: nat, outcome: Result<JsonObject>, now: Instant)
    requires done <= n && WaitingFrom(w, r, n, 0)
    ensures WaitingFrom(TakeAll(w, Runs(done, outcome, now)), r, n, done)
  {
    hide Take, RunsHandler, WaitingFrom, HandlerRuns;
    if done > 0 {
      var before := Runs(done - 1, outcome, now);
      WaitingRun(w, r, n, done - 1, outcome, now);
      OneMoreRuns(TakeAll(w, before), r, n, done - 1, outcome, now);
      TakeSnoc(w, before, Handle(done - 1, outcome, now));
    }
  }

  lemma {:induction false} WaitingRunsCounted(
    w: World, r: Request, n: nat, done: nat, outcome: Result<JsonObject>, now: Instant)
    requires done <= n && WaitingFrom(w, r, n, 0)
    ensures HandlerRuns(w, Runs(done, outcome, now), r.operationId) == done
  {
    hide Take, TakeAll, RunsHandler, WaitingFrom;
    if done > 0 {
      var before := Runs(done - 1, outcome, now);
      WaitingRunsCounted(w, r, n, done - 1, outcome, now);
      WaitingRun(w, r, n, done - 1, outcome, now);
      OneMoreRuns(TakeAll(w, before), r, n, done - 1, outcome, now);
      TakeSnoc(w, before, Handle(done - 1, outcome, now));
    }
  }

  /** There is no smaller bound: any number of callers of one operation can all run the handler. */
  lemma AllCallersMayRunHandler(s: Store, r: Request, n: nat, outcome: Result<JsonObject>, now: Instant)
    requires FindEventByOperationId(s.auditEvents, r.operationId).None?
    ensures HandlerRuns(World(s, map[]), Arrivals(r, n) + Runs(n, outcome, now), r.operationId) == n
  {
    var w := World(s, map[]);
    ArrivalsWait(s, r, n);
    ArrivalsRunNothing(w, r, n);
    WaitingRunsCounted(TakeAll(w, Arrivals(r, n)), r, n, n, outcome, now);
    TakeAppend(w, Arrivals(r, n), Runs(n, outcome, now), r.operationId);
    hide HandlerRuns, TakeAll, Arrivals, Runs;
  }
}
