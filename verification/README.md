# AgentKinetics, modelled and proved in Dafny

AgentKinetics runs workflows that have to survive interruption: every run is a row whose status
changes are written together with checkpoints, approval requests and an append-only audit trail.
This project models the parts of the system that keep that promise and proves what they promise
for every history of calls.

`dafny verify dfyconfig.toml` checks everything.

## Layout

| file | models |
|---|---|
| `Text.dfy`, `Timestamps.dfy` | text order, `str.replace`, `to_iso8601`, `parse_timestamp` |
| `Queries.dfy` | `WHERE` and `ORDER BY created_at`, which compares stored text |
| `Records.dfy`, `Store.dfy` | the rows, the queries and the transactions on the tables |
| `SqliteGateway.dfy` | the gateway object; any transaction may fail, and a ghost log records the committed ones in order |
| `Lifecycle.dfy` | what each lifecycle operation reads and which transactions it plans |
| `Services.dfy` | `OrchestrationService` and `PolicyService`, proved to commit that plan as far as transactions succeed |
| `Histories.dfy` | histories of calls, each of which may stop after any transaction |
| `RunViews.dfy` | one run seen on its own, and proof that a call touches one run only |
| `Outcomes.dfy` | what a whole call answers and leaves behind, row by row, in any reachable state |
| `Gating.dfy`, `Reachability.dfy` | what holds in every reachable state, early stops included |
| `Evidence.dfy` | replay of the audit trail, and what an early stop costs |
| `Reconstruction.dfy`, `Justification.dfy` | replay over histories with early stops: exactly when the trail is still complete, and when it justifies every resume |
| `Cancellation.dfy`, `RunIndependence.dfy` | cancellation is final; runs do not influence each other |
| `EventStream.dfy` | the polling loop behind the live audit stream |
| `StreamOrder.dfy` | the same stream when texts need not ascend: what a connection shows on a forward clock |
| `RateLimit.dfy` | the sliding-window limiter |
| `ToolExecution.dfy`, `ToolResults.dfy` | idempotent tool calls under every interleaving, and where their results come from |
| `Identity.dfy` | users, sessions, stream tickets, first-user bootstrap |
| `Access.dfy` | what each of these calls answers, told by the accounts, logins and tickets before it |
| `LoginAudit.dfy` | logins in the audit trail |
| `Instances.dfy` | concrete inputs at which the code falls short |

A lifecycle operation makes all its reads before its first transaction, so its outcome is an
error or a list of transactions (`Plan`). The gateway commits a given number of transactions and
then fails (`remaining`); the service methods are proved to append to its log the planned list as
far as that number goes, and to raise the failure if the list is longer (`Follows`). Histories
(`Attempt`) are made of the same calls and numbers, and so cover crashes, lost connections and
failing commits between any two transactions.

## Assumptions

- Lifecycle calls are serialised: the code reads the run and later updates it by id alone.
  `InterleavedResumePassesGate` shows what goes wrong otherwise. Tool calls need no such assumption.
- `Admits`: new rows draw ids that were never drawn before, and their `created_at` text sorts
  behind the rows already in the table. `AdvancingClockComesLast` says exactly when a clock that
  moves forward provides the latter.
- Calls on users, sessions and tickets are serialised too: counting the users and inserting one are
  separate transactions, and `ConcurrentBootstraps` shows what two of them can do. Such a call may
  fail or stop before its audit row, which is its last write, but not earlier.
- Tenants and users named by a call exist. The foreign keys between the run tables are modelled.
- JSON payloads survive being stored.
- The limiter's clock does not step back between calls, and neither does the wall clock that
  sessions and tickets compare with.

## Where the code falls short of its documentation

Each property that fails has its exact condition, proved for all inputs, and an input at which it
fails.

| what fails | exact condition | instance |
|---|---|---|
| State is reconstructible from the trail (POLICY.md, tenet 4; README.md, "every state transition is auditable"): not where a call stopped between its transactions | `TrailReconstructsRunIff` over histories, `StoppedCallKeepsReplayIff` for one call | `StoppedCreateIsNotReplayed` |
| The trail reports every checkpoint | `TrailReportsCheckpointsIff` | `StoppedCreateIsNotReported` |
| Before every resume the trail shows the status and the approval that allowed it | `ResumesAreJustifiedIff` | `UntoldStatusIsResumed` |
| Requests minus decisions in the trail are the open approvals | `RequestsBalanceIff` | `UntoldRequestIsOpen` |
| A login is in the trail (README.md, "every state transition is auditable") | `AcceptedSessionIsAuditedIff` | `CutLoginIsNotAudited` |
| A resume needs an approved latest request: timestamps with zero microseconds are printed without a fraction and sort behind later instants of the same second (`TextOrderIsTimeOrder`) | `ResumeMisreadsLatestIff` | `OpenRequestIsIgnored` |
| A run has one open request at most, for the same reason | `SecondRequestPassesIff` | `SecondRequestPasses` |
| The stream shows every later event, for the same reason | `LaterEventIsShownIff` for a poll, `StreamOnForwardClock` for a connection | `EventAfterNoonIsLost` |
| The stream shows every event: not more than 50 between two polls | `StreamIsCompleteIff` | `FirstOf51IsLost` |
| Runs are independent: operation ids are unique over all runs | `OutcomesAreIndependent` | `OperationIdIsShared` |
| A tool runs once per operation: callers that look before the first result is recorded all run the handler, and all but the first are refused (`SecondRecordIsRefused`) | `RunsUseUpMisses` | `AllCallersMayRunHandler` |

## Model

| member | source | states |
|---|---|---|
| Timestamps.RoundTrip | src/agentkinetics/shared/time.py:10-15 | parsing a stored timestamp gives back the instant, for every UTC microsecond instant |
| Timestamps.StoredText | src/agentkinetics/shared/time.py:10-11 | the stored text is the seconds, the fraction only when it is not zero, and `Z`; `StoredLayout` says what the seconds look like |
| Timestamps.StoredLayout | src/agentkinetics/shared/time.py:10-11 | every stored timestamp character by character: 20 or 27 of them, `-`, `T`, `:`, `.` and `Z` in their places, and between them the digits of year, month, day, hour, minute, second and microsecond |
| Timestamps.StoredFields | src/agentkinetics/shared/time.py:10-11 | the same text written out as one concatenation of fixed-width decimals |
| Timestamps.ParsesOnlyIsoFormat | src/agentkinetics/shared/time.py:14-15 | the parser reads no text but those `isoformat` writes, and these with six zeros for a missing fraction |
| Timestamps.DaysByRule | src/agentkinetics/shared/time.py:14-15 | the days of a month by the century rule and the order of long and short months |
| Timestamps.TextOrderIsTimeOrder | src/agentkinetics/shared/time.py:10-11 | text order equals time order unless both instants share a second and the earlier has zero microseconds, and then it is reversed |
| Timestamps.TextOrder | src/agentkinetics/shared/time.py:10-11 | for any two instants, which of their texts sorts first |
| Timestamps.TextIsUnique | src/agentkinetics/shared/time.py:10-11 | different instants are stored as different texts |
| Queries.OrderBySorts | src/agentkinetics/storage/sqlite_gateway.py:662-673 | an `ORDER BY created_at` returns the same rows sorted by text |
| Queries.QueryOrderIsAppendOrder | src/agentkinetics/storage/sqlite_gateway.py:662-673 | rows come back in the order they were added iff their texts never step back |
| Queries.ForwardClockQueryOrder | src/agentkinetics/storage/sqlite_gateway.py:662-673 | on a forward clock that is so iff no row stamped with zero microseconds is followed within its second |
| Queries.AdvancingClockComesLast | src/agentkinetics/storage/sqlite_gateway.py:696-718 | a new row of a forward clock sorts last iff no earlier row of the same second dropped its fraction |
| Queries.ShownLastIsListedLast | src/agentkinetics/storage/sqlite_gateway.py:662-673 | on a forward clock a query shows the newest row last, or the row that dropped its fraction in the newest row's second |
| Queries.PlaceOf | src/agentkinetics/storage/sqlite_gateway.py:764-789 | behind a listed row stand exactly as many rows as have a greater text |
| SqliteGateway.Gateway.CreateRun | src/agentkinetics/storage/sqlite_gateway.py:243-284 | inserts one pending run with both timestamps equal in one transaction, or that fails and nothing changes |
| SqliteGateway.Gateway.UpdateStatus | src/agentkinetics/storage/sqlite_gateway.py:337-375 | sets status, error message, update time and a given output payload of an existing run and nothing else; NotFoundError or a failed transaction change nothing |
| SqliteGateway.Gateway.AppendCheckpoint | src/agentkinetics/storage/sqlite_gateway.py:377-405 | adds one checkpoint of an existing run; a missing run fails the foreign key |
| SqliteGateway.Gateway.MarkRunWaitingAndCreateApproval | src/agentkinetics/storage/sqlite_gateway.py:547-613 | changes the status and adds the undecided approval in one transaction |
| SqliteGateway.Gateway.DecideApproval | src/agentkinetics/storage/sqlite_gateway.py:615-660 | decides an undecided approval; raises NotFoundError or ConflictError otherwise and changes nothing |
| SqliteGateway.Gateway.AppendEvent | src/agentkinetics/storage/sqlite_gateway.py:688-736 | adds one audit row, unless the operation id is taken or the run is missing |
| Services.PolicyService.AssertResumeAllowed | src/agentkinetics/policy/service.py:42-57 | the denial, if any, follows from the latest listed approval |
| Services.PolicyService.Decide | src/agentkinetics/policy/service.py:14-40 | raises the planned error or commits the decision and then its event, stopping where a transaction fails; returns the decided row |
| Services.OrchestrationService.CreateRun | src/agentkinetics/orchestration/service.py:29-58 | commits run, checkpoint and event in this order, stopping where a transaction fails |
| Services.OrchestrationService.ResumeRun | src/agentkinetics/orchestration/service.py:60-85 | raises the planned error or commits status, checkpoint and event in this order, stopping where a transaction fails; returns the stored run |
| Services.OrchestrationService.InterruptRun | src/agentkinetics/orchestration/service.py:87-107 | the same for interrupt |
| Services.OrchestrationService.RetryRun | src/agentkinetics/orchestration/service.py:109-132 | the same for retry, which a failed run may do |
| Services.OrchestrationService.CancelRun | src/agentkinetics/orchestration/service.py:134-154 | the same for cancel; `Outcomes.CancelOutcome` says for which runs it succeeds |
| Services.OrchestrationService.RequestApproval | src/agentkinetics/orchestration/service.py:156-193 | refuses ended runs and a second open request; otherwise marks the run and commits both events in order, stopping where a transaction fails |
| Services.OrchestrationService.GetRunView | src/agentkinetics/orchestration/service.py:195-205 | returns the run with its ordered checkpoints, approvals and events, or NotFoundError |
| Histories.StoppedCallIsLogPrefix | src/agentkinetics/storage/db.py:25-35 | the tables after a call that stopped are those of the log extended by the transactions it committed |
| RunViews.ReachableIsSound | src/agentkinetics/storage/sqlite_gateway.py:662-673 | in every reachable state tables are in text order, approval ids distinct and run ids resolve |
| RunViews.CallActsOnOneRun | src/agentkinetics/orchestration/service.py:60-193 | a call, whole or cut short, changes the view of its own run as if that run were alone, and no other view |
| Outcomes.CreateOutcome | src/agentkinetics/orchestration/service.py:29-58 | in any reachable state a create leaves exactly one pending run, its first checkpoint and one event, field by field |
| Outcomes.ResumeOutcome | src/agentkinetics/orchestration/service.py:60-85 | NotFoundError, ConflictError for ended runs, denial by the latest approval; any other run is running after it, with one checkpoint and one event, field by field |
| Outcomes.InterruptOutcome | src/agentkinetics/orchestration/service.py:87-107 | the same for interrupt: every run that has not ended |
| Outcomes.RetryOutcome | src/agentkinetics/orchestration/service.py:109-132 | the same for retry: every run that is not canceled or completed |
| Outcomes.CancelOutcome | src/agentkinetics/orchestration/service.py:134-154 | the same for cancel: every run that has not ended, waiting ones included |
| Outcomes.RequestOutcome | src/agentkinetics/orchestration/service.py:156-193 | refused for ended runs and an open latest request; otherwise the run waits with one more undecided approval and two events, field by field |
| Outcomes.DecideOutcome | src/agentkinetics/policy/service.py:14-40 | ConflictError for a decided approval; otherwise just the named approval is filled in, the run stays, and one event is added |
| Outcomes.DecideNothing | src/agentkinetics/storage/sqlite_gateway.py:623-630 | an approval nobody requested is not found and nothing changes |
| Outcomes.RecordOutcome | src/agentkinetics/storage/sqlite_gateway.py:688-736 | a taken operation id is refused first, then a missing run; otherwise one event is added, field by field |
| Outcomes.ViewShowsItsRun | src/agentkinetics/orchestration/service.py:195-205 | the view of a run holds its row and exactly the rows that name it |
| Gating.CallKeepsGated | src/agentkinetics/orchestration/service.py:60-193 | every call cut after any transaction keeps the gate, the subsequence of checkpoints and the backing of approval events |
| Gating.DecisionFindsLast | src/agentkinetics/storage/sqlite_gateway.py:623-650 | the undecided approval that a decision finds is the last one of its run |
| Gating.DecisionSettlesResume | src/agentkinetics/policy/service.py:42-57 | after an approval the run may resume, after a denial it is refused as denied |
| Gating.ResumeMisreadsLatestIff | src/agentkinetics/policy/service.py:42-57 | for any approvals of a run: the gate answers other than by the newest iff an approval with another status dropped its fraction in the newest one's second; an open request is ignored iff an approved one did |
| Instances.OpenRequestIsIgnored | src/agentkinetics/policy/service.py:42-57 | an instance: an approval of noon sharp hides a request made one microsecond later from the gate |
| Gating.SecondRequestPassesIff | src/agentkinetics/orchestration/service.py:170-178 | a second request passes while one is open iff a decided approval dropped its fraction in the open one's second, and the run then has two open approvals |
| Instances.SecondRequestPasses | src/agentkinetics/orchestration/service.py:170-178 | an instance: the same approval lets a second request pass and leaves two open ones |
| Gating.InterleavedResumePassesGate | src/agentkinetics/orchestration/service.py:60-68 | a resume that read before a request and writes after it leaves a running run with an open request |
| Reachability.ReachableIsGated | src/agentkinetics/orchestration/service.py:29-193 | with stops after any transaction: gate on rows, trail events a subsequence of the checkpoints with equal contents, approval events backed by stored rows |
| Reachability.RunningRunIsApproved | src/agentkinetics/policy/service.py:42-57 | a running run has no approvals or its latest is approved; only the last approval can be open; completed and failed are never reached |
| Reachability.CreatingIsAdmissible | src/agentkinetics/orchestration/service.py:29-58 | a created run meets the assumptions of a history and is pending with one checkpoint and one event |
| Reachability.DecisionsAreFinal | src/agentkinetics/storage/sqlite_gateway.py:631-650 | over any later history approvals are only added and a decided one never changes |
| Evidence.TrailReconstructsRun | src/agentkinetics/orchestration/service.py:29-193 | folding a run's trail gives its stored status and its approvals: ids in order, status, reason, requester, decider |
| Evidence.TrailReportsCheckpoints | src/agentkinetics/orchestration/service.py:46-84 | the trail without approval and tool events reports exactly the checkpoints, previous status and reason included |
| Evidence.EveryResumeWasAllowed | src/agentkinetics/orchestration/service.py:60-85 | before each resume the trail shows no request, or an approved decision on the last one, and replays to its `from_status` |
| Evidence.OpenRequestsAreUndecided | src/agentkinetics/orchestration/service.py:170-178 | requests minus decisions in the trail is the number of undecided approvals, none or one |
| Evidence.LastApprovalInTrail | src/agentkinetics/policy/service.py:42-57 | for any trail, where its last approval was requested and decided as replay says |
| Evidence.StoppedCallKeepsReplayIff | src/agentkinetics/orchestration/service.py:65-84 | replay survives a stop iff nothing or everything was committed, or the transition led to the status the run had |
| Reconstruction.TrailReconstructsRunIff | src/agentkinetics/storage/db.py:25-35 | in any history with stops, replay equals the stored run iff no request or decision on it was cut and the last status written is the last announced |
| Reconstruction.TrailReportsCheckpointsIff | src/agentkinetics/orchestration/service.py:65-84 | in any history with stops, the trail misses exactly one checkpoint for each call that stopped between a checkpoint and its event, and none iff there is no such call |
| Justification.ResumesAreJustifiedIff | src/agentkinetics/orchestration/service.py:60-85 | in any history with stops, the trail before every resume replays to its `from_status` and shows no open or refused request iff at each resume the last status written was announced and the last request told, if any, was told approved |
| Justification.RequestsBalanceIff | src/agentkinetics/orchestration/service.py:170-192 | in any history with stops, requests plus untold requests equal decisions plus untold decisions plus undecided approvals |
| Instances.UntoldStatusIsResumed | src/agentkinetics/orchestration/service.py:60-85 | an instance: a resume of a run whose creation stopped is in the trail without a status before it |
| Instances.UntoldRequestIsOpen | src/agentkinetics/orchestration/service.py:170-192 | an instance: a request stopped after its first transaction is open and untold |
| Instances.StoppedCreateIsNotReplayed | src/agentkinetics/orchestration/service.py:29-58 | an instance: a create stopped after its first transaction |
| Instances.StoppedCreateIsNotReported | src/agentkinetics/orchestration/service.py:29-58 | an instance: a create stopped after its second |
| Cancellation.CanceledIsFinal | src/agentkinetics/orchestration/service.py:62-63 | after a cancel the run row, checkpoints and requests never change, no run or request event follows, and at most one decision does |
| RunIndependence.RunsAreIndependent | src/agentkinetics/orchestration/service.py:60-193 | the calls on one run, taken out of any history, are an admissible history with the same view of the run |
| RunIndependence.OutcomesAreIndependent | src/agentkinetics/orchestration/service.py:60-193 | a call about the run raises or commits the same with that run alone, iff it does not record an event whose operation id only events outside the run hold |
| Instances.OperationIdIsShared | src/agentkinetics/storage/schema.py:131-135 | an instance: an event is refused because another run's event holds its operation id |
| EventStream.Stream | src/agentkinetics/interfaces/api.py:315-364 | the generator's loops yield what `Played` says for the tables it polls |
| EventStream.EventIterator.Poll | src/agentkinetics/interfaces/api.py:331-364 | one poll yields the events behind the cursor and moves the cursor to the last of them |
| EventStream.StreamKeepsTenant | src/agentkinetics/storage/sqlite_gateway.py:764-789 | a connection shows events of its own tenant only |
| EventStream.TenantLogIsTenants | src/agentkinetics/storage/sqlite_gateway.py:764-789 | the tenant's log is its events in the order of the table |
| EventStream.PollYieldsLatestNew | src/agentkinetics/interfaces/api.py:86-92 | a poll yields exactly the last 50 of the events that are new since the cursor was set |
| EventStream.StreamReadsLog | src/agentkinetics/interfaces/api.py:315-364 | over any polls and growth the stream is the tenant's log read at the given positions |
| EventStream.PositionsIncrease | src/agentkinetics/interfaces/api.py:315-364 | those positions increase strictly and lie after the connection, so nothing repeats |
| EventStream.StreamIsCompleteIff | src/agentkinetics/interfaces/api.py:315-364 | the stream equals the log suffix iff no interval added more than 50 events |
| EventStream.StreamOfHistory | src/agentkinetics/storage/sqlite_gateway.py:764-789 | all of this for polls between the calls of any admissible history |
| StreamOrder.LaterEventIsShownIff | src/agentkinetics/storage/sqlite_gateway.py:764-789 | for any log and cursor, a poll shows a later event iff the one at the cursor did not drop its fraction within the same second and fewer than 50 events sort behind the later one |
| StreamOrder.StreamOnForwardClock | src/agentkinetics/interfaces/api.py:315-364 | on a forward clock, over any polls: texts ascend, so nothing is shown twice; an event is shown iff, at the poll it is new at, no event of the previous poll dropped its fraction in its second and fewer than 50 sort behind it; what that poll misses is never shown |
| StreamOrder.CursorIsLastListed | src/agentkinetics/interfaces/api.py:315-364 | after any polls the cursor is the last event of the listing |
| Instances.EventAfterNoonIsLost | src/agentkinetics/interfaces/api.py:315-364 | an instance: an event a microsecond after one of noon sharp is never shown |
| Instances.FirstOf51IsLost | src/agentkinetics/interfaces/api.py:315-364 | an instance: of 51 events between two polls the first is lost |
| RateLimit.SlidingWindowRateLimiter.IsAllowed | src/agentkinetics/shared/rate_limit.py:40-78 | evicts expired timestamps, decides by the number left, and records the call only if allowed |
| RateLimit.SlidingWindowRateLimiter.Reset | src/agentkinetics/shared/rate_limit.py:80-83 | removes the key's bucket and no other |
| RateLimit.DequeRefinesFullHistory | src/agentkinetics/shared/rate_limit.py:40-78 | a call is allowed iff fewer than `limit` allowed calls of the key since its reset lie in the closed window before it |
| RateLimit.EvictedPlusRetained | src/agentkinetics/shared/rate_limit.py:54-68 | expired timestamps followed by the bucket are the allowed calls since the reset |
| RateLimit.KeysAreIsolated | src/agentkinetics/shared/rate_limit.py:51-57 | a verdict depends on the key's own calls only, whatever the clock does |
| RateLimit.EveryWindowWithinLimit | src/agentkinetics/shared/rate_limit.py:55-68 | every closed window, wherever it starts, has at most `limit` allowed calls of a key |
| RateLimit.EveryIntervalBounded | src/agentkinetics/shared/rate_limit.py:48-78 | a closed interval of length T has at most limit * (floor(T / window) + 1) of them |
| ToolExecution.ToolService.Execute | src/agentkinetics/tools/service.py:20-66 | one call equals its lookup, handler and record steps taken without interference; with a new operation id, a stored run, a registered handler and storage it returns the handler's output and adds the one row that records it |
| ToolExecution.NewOperation | src/agentkinetics/tools/service.py:43-66 | for a new operation id the result is the handler's output with its time, and the one added row carries caller, tool, input and that output |
| ToolExecution.KnownOperation | src/agentkinetics/tools/service.py:29-42 | for a known one the result is what its row spells out, with the error for each way in which the row can be malformed |
| ToolExecution.UnknownTool | src/agentkinetics/tools/service.py:43-45 | a tool without a handler is not found, a registered one is run on the caller's input |
| ToolResults.ResultsHaveSource | src/agentkinetics/tools/service.py:29-66 | under every interleaving a returned result is spelled out by a row of the start, by a row written elsewhere, or is the output of a handler run of that operation |
| ToolExecution.ToolService.Register | src/agentkinetics/tools/service.py:17-18 | binds the name to the handler |
| ToolExecution.ResultRoundTrip | src/agentkinetics/tools/service.py:29-66 | what is recorded for a result reads back as that result, timestamp included |
| ToolExecution.InterleavingsAreIdempotent | src/agentkinetics/tools/service.py:29-66 | under every interleaving one row per operation id, and every returned result is that row's |
| ToolExecution.CallersAgree | src/agentkinetics/tools/service.py:29-66 | calls that return for one operation id return the same output, success flag and timestamp |
| ToolExecution.ReturnedResultIsStored | src/agentkinetics/storage/schema.py:131-135 | a returned result is spelled out in the only row of its operation id |
| ToolExecution.RepeatedCallReadsRow | src/agentkinetics/tools/service.py:29-42 | once a row exists, a later call ends at its lookup with what the row stores |
| ToolExecution.RunsUseUpMisses | src/agentkinetics/tools/service.py:29-50 | under every interleaving, handler runs plus callers about to run it equal the lookups that found no row |
| ToolExecution.RowEndsMisses | src/agentkinetics/tools/service.py:29-50 | once a row exists, at most the callers that had already looked run the handler |
| ToolExecution.AllCallersMayRunHandler | src/agentkinetics/tools/service.py:29-50 | any number of callers of one operation can all run the handler |
| Identity.Server.EnsureDefaultTenant | src/agentkinetics/identity/service.py:55-61 | returns the default tenant, which it creates if there is none |
| Identity.Server.CreateLocalUserRoute | src/agentkinetics/interfaces/api.py:428-477 | the order of checks: bootstrap or admin, limiter (which only then counts the attempt and records a blocked one), tenant, username; then one user is added |
| Identity.Server.LoginRoute | src/agentkinetics/interfaces/api.py:479-551 | ensures the tenant; the limiter counts the attempt for the username; then the credentials are checked, a session is added that ends after the time to live, and it is described at a later reading; blocked, failed and successful attempts are recorded; `Access.LoginOutcome` says which credentials are good |
| Identity.Server.LogoutRoute | src/agentkinetics/interfaces/api.py:553-560 | revokes the session of a live token, refuses any other |
| Identity.Server.CreateSseTicket | src/agentkinetics/interfaces/api.py:254-269 | stores a ticket for a live token, good for 30 seconds from a later clock reading |
| Identity.Server.EventsStream | src/agentkinetics/interfaces/api.py:279-305 | consumes the ticket in every case, then checks its deadline and, at a later reading, its session; `Access.StreamOpensIff` says when it opens and for which tenant |
| Access.CreationOutcome | src/agentkinetics/interfaces/api.py:428-477 | authorisation, limiter, tenant and name, each with its answer; otherwise one user with the given name, role and hashed password is added |
| Access.UsersAreCreations | src/agentkinetics/identity/service.py:63-88 | the user table is the successful creations, as they were asked for, and nothing else |
| Access.LoginOutcome | src/agentkinetics/identity/service.py:26-46 | a login within the limit succeeds iff its password hashes as the one the account was created with; otherwise it adds no session and is recorded as blocked or failed |
| Access.SessionsAreLogins | src/agentkinetics/identity/service.py:26-46 | every session there is was given to a login that presented the password of a created account |
| Access.LogoutOutcome | src/agentkinetics/interfaces/api.py:553-560 | a live token is revoked for good and nothing else changes; any other is refused |
| Access.TicketOutcome | src/agentkinetics/interfaces/api.py:254-269 | a live token gets a ticket good for 30,000,000 microseconds; any other is refused |
| Access.StreamOpensIff | src/agentkinetics/interfaces/api.py:279-316 | a stream opens iff the ticket was issued, not presented since, is at most 30,000,000 microseconds old and its session is accepted; it shows the tenant of the session's user |
| Identity.AcceptedIffLive | src/agentkinetics/identity/service.py:94-124 | a token is accepted iff it was issued, no logout was asked for since, and the time is before issue plus time to live |
| Identity.RejectionIsPermanent | src/agentkinetics/identity/service.py:94-124 | an issued token that is refused once is refused ever after |
| Identity.TicketOpensOnce | src/agentkinetics/interfaces/api.py:279-287 | a ticket opens at most one stream in any history |
| Identity.StreamOpensInTime | src/agentkinetics/interfaces/api.py:254-290 | a stream opens within 30 seconds of its ticket's issue and while that session is live |
| Identity.UsersGrowUnderAdmin | src/agentkinetics/interfaces/api.py:215-247 | once a user exists, a user is added only for a caller who presents the token of an accepted admin session, and none is changed or removed |
| Identity.CreationIsGrantedIff | src/agentkinetics/interfaces/api.py:215-247 | creation is granted iff there are no users or the header names a session issued, not logged out, not expired, of an admin |
| LoginAudit.AcceptedSessionIsAuditedIff | src/agentkinetics/interfaces/api.py:524-541 | the login behind an accepted token is in the trail, with its user and session, iff it was not cut before its audit row |
| LoginAudit.CutLoginIsNotAudited | src/agentkinetics/interfaces/api.py:524-541 | an instance: the token of a login cut before its audit row is accepted, and the trail is empty |
| Identity.FirstUserIsAdmin | src/agentkinetics/interfaces/api.py:215-247 | two or more users imply that the first is an admin |
| Identity.ConcurrentBootstraps | src/agentkinetics/interfaces/api.py:215-247 | two bootstraps that interleave leave two users, the first an operator |
| Identity.OperatorBootstrapIsFinal | src/agentkinetics/interfaces/api.py:428-464 | a first user who is an operator stays the only user forever |
| Identity.UsernamesAreUnique | src/agentkinetics/identity/service.py:73-76 | usernames are unique in every reachable state |
| Identity.CreatedUserCanLogIn | src/agentkinetics/identity/service.py:63-88 | the account a call creates authenticates with its password in every later state |

## Left out

- FromIsoFormat: reads only the two shapes `isoformat` writes for UTC; the other ISO 8601 shapes Python accepts read as an error here.
- ToIso8601: takes instants that are already in UTC, as every caller passes; conversion from other time zones is not modelled.
- OrderBy: keeps rows with equal texts in table order, where SQLite leaves their order open; the theorems assume distinct texts.
- IsAllowed: takes the clock reading as a parameter; in the code it is read before the lock, so two threads may arrive out of order. Timestamps are reals: the rounding of floating-point subtraction at the edge of a window is not modelled.
- Execute: a handler is a function that returns an output or an error; effects it has outside the audit table are not modelled. A caller whose process stops is one that takes no further step.
- CreateLocalUserRoute: may stop before its audit row, not between the creation of a tenant and of a user; the same holds for LoginRoute.
- EnsureDefaultTenant: a tenant is its id; the configured name is not modelled.
- FirstUserIsAdmin: speaks of users created over HTTP; the command line creates users without this check.
- CreateRun: uses the initial state built without LangGraph; the state LangGraph's graph returns is not part of this model.
- Poll: leaves out heartbeats and the serialisation of frames.
- Interleaved lifecycle calls and interleaved calls on users, beyond the examples that show why they are excluded.
- HTTP routing, validation, response shaping, logging, the command line and the browser UI.
- Password hashing, token and id generation: a function and fresh values.
- The SQL engine, files and artifacts; `list_runs`, `counts`, memory records, policies: simple queries or unused tables.
