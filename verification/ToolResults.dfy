/** Where the results of concurrent tool calls come from. */
module ToolResults {
  import opened Text
  import opened Timestamps
  import opened Records
  import opened Store
  import opened SqliteGateway
  import opened ToolExecution

  /** The part of a result that all callers of an operation share. */
  datatype Content = Content(success: bool, output: JsonObject, executedAt: Instant)

  function ContentOf(x: ToolResult): Content {
    Content(x.success, x.output, x.executedAt)
  }

  /** The row spells out the content. */
  predicate Spells(e: AuditEvent, operationId: string, content: Content) {
    && e.operationId == Some(operationId)
    && StoredResult("", e) == Success(ToolResult("", content.success, content.output, content.executedAt))
  }

  predicate InTable(events: seq<AuditEvent>, operationId: string, content: Content) {
    exists i :: 0 <= i < |events| && Spells(events[i], operationId, content)
  }

  predicate WrittenBy(step: Step, operationId: string, content: Content) {
    step.WriteElsewhere? && step.write.InsertEvent? && Spells(step.write.event, operationId, content)
  }

  predicate WrittenElsewhere(steps: seq<Step>, operationId: string, content: Content) {
    exists i :: 0 <= i < |steps| && WrittenBy(steps[i], operationId, content)
  }

  /** In world `w` the step runs the handler of the operation, which returns the content's output. */
  predicate HandlerGave(w: World, step: Step, operationId: string, content: Content) {
    RunsHandler(w, step, operationId) && step.outcome == Success(content.output) && step.now == content.executedAt
    && content.success
  }

  predicate FromHandler(w: World, steps: seq<Step>, operationId: string, content: Content) {
    exists i :: 0 <= i < |steps| && HandlerGave(TakeAll(w, steps[..i]), steps[i], operationId, content)
  }

  predicate Sourced(w: World, steps: seq<Step>, operationId: string, content: Content) {
    || InTable(w.store.auditEvents, operationId, content)
    || WrittenElsewhere(steps, operationId, content)
    || FromHandler(w, steps, operationId, content)
  }

  /** Every result on its way, returned or stored has a source. */
  ghost predicate AllSourced(w: World, steps: seq<Step>) {
    var after := TakeAll(w, steps);
    && (forall who <- after.callers ::
          && (after.callers[who].phase.Handled? ==>
                && after.callers[who].phase.result.toolName == after.callers[who].request.toolName
                && FromHandler(w, steps, after.callers[who].request.operationId,
                               ContentOf(after.callers[who].phase.result)))
          && (after.callers[who].phase.Returned? ==>
                Sourced(w, steps, after.callers[who].request.operationId, ContentOf(after.callers[who].phase.result))))
    && (forall i, op, content | 0 <= i < |after.store.auditEvents| && Spells(after.store.auditEvents[i], op, content) ::
          Sourced(w, steps, op, content))
  }

  lemma FromHandlerStays(w: World, steps: seq<Step>, step: Step, operationId: string, content: Content)
    requires FromHandler(w, steps, operationId, content)
    ensures FromHandler(w, steps + [step], operationId, content)
  {
    hide HandlerGave;
    var more := steps + [step];
    var i :| 0 <= i < |steps| && HandlerGave(TakeAll(w, steps[..i]), steps[i], operationId, content);
    assert more[..i] == steps[..i] && more[i] == steps[i];
  }

  lemma SourcedStays(w: World, steps: seq<Step>, step: Step, operationId: string, content: Content)
    requires Sourced(w, steps, operationId, content)
    ensures Sourced(w, steps + [step], operationId, content)
  {
    hide InTable, FromHandler, WrittenBy;
    var more := steps + [step];
    if FromHandler(w, steps, operationId, content) {
      FromHandlerStays(w, steps, step, operationId, content);
    } else if WrittenElsewhere(steps, operationId, content) {
      var i :| 0 <= i < |steps| && WrittenBy(steps[i], operationId, content);
      assert more[i] == steps[i];
    }
  }

  lemma LastHandler(w: World, steps: seq<Step>, step: Step, operationId: string, content: Content)
    requires HandlerGave(TakeAll(w, steps), step, operationId, content)
    ensures FromHandler(w, steps + [step], operationId, content)
  {
    hide HandlerGave;
    var more := steps + [step];
    assert more[..|steps|] == steps && more[|steps|] == step;
  }

  lemma LastElsewhere(w: World, steps: seq<Step>, step: Step, operationId: string, content: Content)
    requires WrittenBy(step, operationId, content)
    ensures Sourced(w, steps + [step], operationId, content)
  {
    hide WrittenBy;
    assert (steps + [step])[|steps|] == step;
  }

  /** What a lookup returns, the row it finds spells out; the tool name is the caller's. */
  lemma LookedUpIsSpelled(events: seq<AuditEvent>, operationId: string, toolName: string, x: ToolResult)
    requires FindEventByOperationId(events, operationId).Some?
    requires StoredResult(toolName, FindEventByOperationId(events, operationId).value) == Success(x)
    ensures exists i :: 0 <= i < |events| && Spells(events[i], operationId, ContentOf(x))
  {
    hide ParseTimestamp;
    var e := FindEventByOperationId(events, operationId).value;
    var i :| 0 <= i < |events| && events[i] == e;
  }

  /** A recorded row spells out the recorded result and nothing else. */
  lemma RecordedIsSpelled(r: Request, result: ToolResult, draw: Draw, operationId: string, content: Content)
    requires result.toolName == r.toolName
    ensures Spells(ResultEvent(r, result, draw), operationId, content) ==>
              operationId == r.operationId && content == ContentOf(result)
  {
    ResultRoundTrip(r, result, draw);
    hide ToIso8601, ParseTimestamp;
  }

  // ---------------------------------------------------------------- one step

  /** What a step changes: at most one caller's phase, and at most one row. */
  lemma StepSources(w: World, steps: seq<Step>, step: Step)
    requires AllSourced(w, steps)
    ensures var before, after := TakeAll(w, steps), Take(TakeAll(w, steps), step);
            && (forall who <- after.callers ::
                  && (after.callers[who].phase.Handled? ==>
                        && after.callers[who].phase.result.toolName == after.callers[who].request.toolName
                        && FromHandler(w, steps + [step], after.callers[who].request.operationId,
                                       ContentOf(after.callers[who].phase.result)))
                  && (after.callers[who].phase.Returned? ==>
                        Sourced(w, steps + [step], after.callers[who].request.operationId,
                                ContentOf(after.callers[who].phase.result))))
  {
    hide InTable, WrittenElsewhere, FromHandler, ParseTimestamp, StoredResult, Spells, ResultEvent, InsertEventError;
    var before, after := TakeAll(w, steps), Take(TakeAll(w, steps), step);
    hide TakeAll;
    forall who <- after.callers
      ensures after.callers[who].phase.Handled? ==>
                && after.callers[who].phase.result.toolName == after.callers[who].request.toolName
                && FromHandler(w, steps + [step], after.callers[who].request.operationId,
                               ContentOf(after.callers[who].phase.result))
      ensures after.callers[who].phase.Returned? ==>
                Sourced(w, steps + [step], after.callers[who].request.operationId,
                        ContentOf(after.callers[who].phase.result))
    {
      var caller := after.callers[who];
      var op := caller.request.operationId;
      if who in before.callers && before.callers[who] == caller {
        if caller.phase.Handled? {
          FromHandlerStays(w, steps, step, op, ContentOf(caller.phase.result));
        } else if caller.phase.Returned? {
          SourcedStays(w, steps, step, op, ContentOf(caller.phase.result));
        }
      } else if caller.phase.Handled? {
        LastHandler(w, steps, step, op, ContentOf(caller.phase.result));
      } else if caller.phase.Returned? {
        if step.Lookup? {
          LookedUpIsSpelled(before.store.auditEvents, op, caller.request.toolName, caller.phase.result);
        }
        SourcedStays(w, steps, step, op, ContentOf(caller.phase.result));
      }
    }
  }

  lemma StepSourcesRows(w: World, steps: seq<Step>, step: Step, i: nat, operationId: string, content: Content)
    requires AllSourced(w, steps)
    requires var events := Take(TakeAll(w, steps), step).store.auditEvents;
             i < |events| && Spells(events[i], operationId, content)
    ensures Sourced(w, steps + [step], operationId, content)
  {
    hide Spells, FindEventByOperationId, StoredResult, ResultEvent, InsertEventError;
    hide InTable, WrittenElsewhere, FromHandler;
    var before, after := TakeAll(w, steps), Take(TakeAll(w, steps), step);
    hide TakeAll;
    StepAddsOneEvent(before, step);
    if i < |before.store.auditEvents| {
      assert after.store.auditEvents[i] == before.store.auditEvents[i];
      SourcedStays(w, steps, step, operationId, content);
    } else if step.WriteElsewhere? {
      LastElsewhere(w, steps, step, operationId, content);
    } else {
      var caller := before.callers[step.who];
      RecordedIsSpelled(caller.request, caller.phase.result, step.draw, operationId, content);
      FromHandlerStays(w, steps, step, operationId, content);
    }
  }

  lemma StartIsSourced(w: World)
    requires w.callers == map[]
    ensures AllSourced(w, [])
  {
    hide Spells;
    forall i, op, content | 0 <= i < |w.store.auditEvents| && Spells(w.store.auditEvents[i], op, content)
      ensures Sourced(w, [], op, content)
    {
      assert InTable(w.store.auditEvents, op, content);
    }
  }

  lemma StepKeepsSourced(w: World, steps: seq<Step>, step: Step)
    requires AllSourced(w, steps) && TakeAll(w, steps + [step]) == Take(TakeAll(w, steps), step)
    ensures AllSourced(w, steps + [step])
  {
    hide Take, TakeAll, Sourced, FromHandler, Spells;
    StepSources(w, steps, step);
    var events := Take(TakeAll(w, steps), step).store.auditEvents;
    forall i: nat, op, content | i < |events| && Spells(events[i], op, content)
      ensures Sourced(w, steps + [step], op, content)
    {
      StepSourcesRows(w, steps, step, i, op, content);
    }
  }

  lemma {:induction false} InterleavingsAreSourced(w: World, steps: seq<Step>)
    requires w.callers == map[]
    ensures AllSourced(w, steps)
  {
    hide AllSourced;
    if steps == [] {
      StartIsSourced(w);
    } else {
      var front, last := steps[..|steps| - 1], steps[|steps| - 1];
      InterleavingsAreSourced(w, front);
      assert front + [last] == steps;
      StepKeepsSourced(w, front, last);
    }
  }

  /**
   Under every interleaving, what a call returns is spelled out by a row that was there at the start,
   by a row something else wrote, or is the output of a handler run of the same operation.
   */
  lemma ResultsHaveSource(s: Store, steps: seq<Step>, who: nat)
    requires var w := TakeAll(World(s, map[]), steps); who in w.callers && w.callers[who].phase.Returned?
    ensures var w := TakeAll(World(s, map[]), steps);
            var op, content := w.callers[who].request.operationId, ContentOf(w.callers[who].phase.result);
            || InTable(s.auditEvents, op, content)
            || WrittenElsewhere(steps, op, content)
            || FromHandler(World(s, map[]), steps, op, content)
  {
    InterleavingsAreSourced(World(s, map[]), steps);
    hide TakeAll, InTable, WrittenElsewhere, FromHandler;
  }
}
