# Verification of the support desk's stateful core

A Dafny 4.11 model of the parts of the support desk that interact through time, transactions and
interleaving, with proofs about every run. `dafny verify dfyconfig.toml` checks the whole project.

| file | what it models |
|---|---|
| `Entity.dfy` | the ticket object: status machine, pause and resume of the SLA stopwatch |
| `Lifecycle.dfy` | what one patch does to one row, as functions; order of combined patches; escalation |
| `SlaClock.dfy` | serialized runs of one ticket against an independent stopwatch |
| `Postgres.dfy`, `Ws.dfy` | the ticket tables with transactions; the Redis publisher and escalation list |
| `TicketUsecase.dfy` | Create, Update and Escalate as transactions with failing steps |
| `TicketProtocol.dfy` | updates split into begin, unlocked read, in-memory steps and commit, interleaved with everything else |
| `TicketHistory.dfy`, `TicketTimeline.dfy` | when status history and timeline tell the truth about a row, for every run |
| `TicketSerial.dfy`, `TicketOverlaps.dfy` | runs of whole requests, tied to the use cases; runs from empty tables that lose a promised property |
| `Worker.dfy` | the worker loop: breach sweep and escalation jobs |
| `RefreshTokens.dfy`, `AuthUsecase.dfy`, `Client.dfy` | refresh-token rotation: the locking protocol, the use cases, the browser's retry |
| `RateLimiter.dfy` | the sliding-window limiter against the full attempt log |
| `Migration.dfy`, `MigrationOrder.dfy`, `MigrationRunners.dfy` | the migration runner, its order, and concurrent runners |
| `Password.dfy`, `UuidV7.dfy` | base64 and the password record; the identifier layout |
| `Attachments.dfy`, `AttachmentCap.dfy` | uploads: count check, exclusive store, insert, interleaved |

## How the model is built

Time is an integer number of microseconds (milliseconds for the limiter and the identifiers). Code
that works on an object or a table in place is a class whose methods carry the same branches; each
method's contract equates its new state with a function of the old one, and the lemmas are about
those functions. Network and disk outcomes, clock readings and random material are parameters, so
every statement holds for all of them. A concurrent protocol is a total function `Do(world, action)`
in which a step that is not enabled changes nothing; a run is any sequence of actions, and each
action first lets an arbitrary amount of time pass (in the token protocol the clock may also be set
back). `TicketSerial.AloneIsUpdate` and
`AuthUsecase.AloneIsRefresh`, like `Attachments.AloneIsUpload` and `MigrationRunners.AloneIsMigrate`,
tie the protocol steps, run without interruption, to the operations;
`Worker.Loop.BreachJob` names the protocol steps that one turn of the worker is, and the table of
`AuthUsecase.Auth` is at every moment that of a reachable protocol world.

History rows carry two columns by which they can be ordered: `created_at`, which is the beginning of
the transaction that recorded them, and a time-ordered id, which is the instant of their insert.
Timeline orders audit entries by `created_at`. Neither is the order of commits, so the model draws a
stamp for each of the two and the statements about histories and timelines are about sorted rows.

## Where the code differs from what its documents say

- "Pending pauses the SLA" (README.md:72) is no invariant: a priority change while pending starts the
  clock again. `Lifecycle.PendingStaysPausedIff` gives the exact condition and
  `TicketOverlaps.PendingUnpaused` a run; "paused implies pending" holds in every interleaving.
- "The history is a path" holds throughout a run, in either column's order, exactly when every commit
  on the ticket still finds the status it read and no edge of the ticket is stamped later than the one
  it records (`TicketHistory.ExecKeepsPathIff`). GetTicket takes no lock, and the history row is
  inserted before the row lock is taken, so both halves can fail: `TicketOverlaps.ClosedReopened`,
  `TicketOverlaps.CurrentYetNoPath`.
- "Closed is terminal" holds throughout a run exactly when every update that commits on the closed ticket
  had read it closed or asks for closed (`TicketHistory.ClosedIsTerminalIff`);
  `TicketOverlaps.ClosedReopened` is a run from empty tables that reopens a closed ticket.
- The last ticket entry of the timeline shows the row's columns exactly as long as no update that changes
  a column commits after one that began later (`TicketTimeline.TimelineAgreesIff`,
  `TicketOverlaps.TimelineLags`). The entry committed last always does.
- "Escalate raises the priority" holds when nothing intervenes between its own read and its update;
  otherwise it can lower it, exactly when the priority had risen by two notches or more in between
  (`Lifecycle.EscalationEffect`; `TicketOverlaps.EscalationLowers` is such a run).
- The priority patch and the status patch do not commute for a request that enters pending with a new
  priority (`Lifecycle.RestThenStatus`).
- ConsumeRefresh answers "unauthorized" for any failure of its locking read, because the expiry test on
  the zero time comes before the error test (repository.go:60-65).
- The rate limiter's sliding window also depends on Redis's own clock, because the key expires a window
  after the last call was executed. With readings that never go back its entries are the log's window
  for every call exactly when no whole window passes on the server between two consecutive calls whose
  readings are closer than that (`RateLimiter.LimiterRefinesLogIff`); otherwise it can admit too many
  (`RateLimiter.LateReplyAdmitsTwo`).
- The cap of 10 attachments holds for serialized uploads; with k uploads in flight it is 9 + k, and that
  many rows are reached (`AttachmentCap.CapIsReached`).
- After a logout call on its own the browser's store holds a revoked token until the page clears it;
  `Client.Browser.Api` states this and `LogOut` includes the clear.

## Model

| member | source | states |
|---|---|---|
| Entity.Ticket.TransitionTo | internal/domain/entity/entity.go:81-91 | succeeds iff the status stays or the pair is one of the six listed; otherwise the ticket is unchanged |
| Entity.Ticket.PauseSLA | internal/domain/entity/entity.go:92-102 | the fields become exactly the paused row; no-op without a due time or when already paused |
| Entity.Ticket.ResumeSLA | internal/domain/entity/entity.go:103-116 | the fields become exactly the resumed row; no-op when not paused |
| Entity.PauseBounds | internal/domain/entity/entity.go:92-102 | a pause loses less than one second, never gains, clamps at zero, and is exact iff a whole non-negative number of seconds was left |
| Entity.PauseThenResume | internal/domain/entity/entity.go:92-116 | pause then resume moves only the due time, and by the length of the pause iff whole seconds were left |
| Lifecycle.DurationsMatchPolicies | internal/usecase/usecase.go:159-170 | the code's durations equal the seeded sla_policies |
| Lifecycle.PatchCommitsIff | internal/usecase/usecase.go:203-233 | an update of a stored ticket commits iff the status asked for is the stored one or one of six listed steps away and the priority asked for is one of four |
| Lifecycle.PatchSetsWhatItNames | internal/usecase/usecase.go:203-232 | every named field is set, every other kept; the stopwatch moves only with status or priority |
| Lifecycle.PendingStaysPausedIff | internal/usecase/usecase.go:203-226 | the exact condition under which an update keeps "pending implies paused" |
| Lifecycle.CombinedIsStatusThenRest | internal/usecase/usecase.go:203-232 | a combined patch succeeds, and gives the row and history of, the status patch followed by the rest |
| Lifecycle.RestThenStatus | internal/usecase/usecase.go:203-226 | the opposite order agrees iff the status is not pending or the priority does not change |
| Lifecycle.EscalationEffect | internal/usecase/usecase.go:260-274 | one notch from the priority seen; lowers the stored one iff it rose two notches meanwhile; restarts the SLA iff the priority moved |
| Lifecycle.ApplyStatusSound | internal/usecase/usecase.go:203-213 | the status step keeps the stopwatch encoding and the bound by the priority's duration |
| Lifecycle.ApplyRestSound | internal/usecase/usecase.go:220-232 | so do the priority, assignee and team steps |
| SlaClock.SlaRefinement | internal/domain/entity/entity.go:92-116 | over every serialized run: time left is at most max(0,B-A), equals B-A without pauses, and exceeds B-A-k seconds after k pauses |
| SlaClock.RunRefines | internal/usecase/usecase.go:197-237 | the refinement relation is kept by every run from any related state |
| SlaClock.OpRefines | internal/usecase/usecase.go:203-226 | and by every single update, escalation and sweep |
| SlaClock.NoEscape | internal/usecase/usecase.go:203-226 | once the budget is spent, no run that leaves the priority alone shows positive time left |
| SlaClock.NoEscapeFromOverdue | internal/usecase/usecase.go:203-226 | the same for every run from creation |
| SlaClock.OnlyPriorityRestores | internal/usecase/usecase.go:220-226 | one operation on an overdue ticket leaves positive time iff it changes the priority |
| SlaClock.SweepMarksOverdue | cmd/worker/main.go:37 | a spent, running, open or pending ticket is marked by every strictly later sweep |
| Postgres.Database.Begin | internal/infrastructure/database/database.go:39-43 | the transaction starts on the committed tables |
| Postgres.Database.End | internal/infrastructure/database/database.go:44-48 | commit makes the work visible; any error leaves the committed tables as they were |
| Postgres.Database.GetTicket | internal/adapter/repository/postgres/repository.go:88-90 | the row as the transaction or, outside one, as every reader sees it |
| Postgres.Database.CreateTicket | internal/adapter/repository/postgres/repository.go:84-87 | inserts the eight columns under primary key and CHECK constraints |
| Postgres.Database.UpdateTicket | internal/adapter/repository/postgres/repository.go:119-122 | rewrites seven columns and leaves the breach mark and the customer |
| Postgres.Database.AddStatusHistory | internal/adapter/repository/postgres/repository.go:153-156 | appends one history row |
| Postgres.Database.Audit | internal/adapter/repository/postgres/repository.go:147-151 | appends one audit row, in the transaction if there is one |
| Postgres.Database.SweepBreached | cmd/worker/main.go:37 | marks and returns exactly the qualifying tickets |
| Ws.Publisher.Publish | internal/adapter/ws/ws.go:64-70 | one attempt, together with the tables that readers find at that moment |
| Ws.Publisher.EnqueueEscalation | internal/adapter/ws/ws.go:71-77 | keeps the list first-in first-out |
| Ws.Publisher.PopEscalation | cmd/worker/main.go:52 | returns the oldest job not yet popped, and one whenever one waits |
| TicketUsecase.Tickets.Create | internal/usecase/usecase.go:171-191 | the returned open ticket, its row and its audit payload are the same; they commit together before one publish, or nothing happens |
| TicketUsecase.Tickets.MoveStatus | internal/usecase/usecase.go:202-219 | the status block changes the ticket and adds the history row, or reports which step failed |
| TicketUsecase.Tickets.SetRest | internal/usecase/usecase.go:220-232 | the remaining blocks change the ticket as the patch says |
| TicketUsecase.Tickets.Store | internal/usecase/usecase.go:233-236 | the row write and the audit row |
| TicketUsecase.Tickets.UpdateInTx | internal/usecase/usecase.go:197-237 | the callback changes row, history and audit of its transaction, or returns the first failing step's error |
| TicketUsecase.Tickets.Update | internal/usecase/usecase.go:192-242 | all or nothing: row, history and audit commit together, then exactly one publish that finds them committed; otherwise no change and no publish |
| TicketUsecase.Tickets.Escalate | internal/usecase/usecase.go:260-274 | invisible tickets are not found; the job is queued only after commit and publish |
| TicketUsecase.CommitsExactlyWhen | internal/usecase/usecase.go:192-242 | an update commits iff the actor may, every needed call gets through and the table accepts the row |
| TicketUsecase.RefusedExactlyWhen | internal/usecase/usecase.go:192-242 | which cause gives which refusal: forbidden, not found, invalid transition, storage failure |
| TicketUsecase.CommittedUpdate | internal/usecase/usecase.go:214-236 | a committed update leaves the patched row, one history row iff the status moved, and one audit row of the actor that holds the row |
| TicketProtocol.InterleavingSafety | internal/usecase/usecase.go:197-237 | in every interleaving: paused iff remaining set, paused implies pending, remaining non-negative, time left within the priority's duration |
| TicketProtocol.ExecSafe | internal/usecase/usecase.go:197-237 | the invariant over rows and requests in flight is kept by every run |
| TicketProtocol.MoveStatusSafe | internal/usecase/usecase.go:203-213 | the in-memory status step keeps it, whatever committed since the read |
| TicketProtocol.WriteSafe | internal/adapter/repository/postgres/repository.go:119-122 | a commit of a possibly stale copy keeps it |
| TicketProtocol.BreachIsForever | internal/adapter/repository/postgres/repository.go:119-122 | a breach mark is never changed or lost in any run |
| TicketProtocol.TakeKeepsBreach | cmd/worker/main.go:37 | only a sweep sets the mark, only on a qualifying row, with its own time |
| TicketProtocol.BreachExactlyOnce | cmd/worker/main.go:37-49 | over all runs and workers a ticket is returned by at most one sweep, exactly if marked, with at most one breach audit row and event |
| TicketProtocol.SweepIsExact | cmd/worker/main.go:37 | which rows a sweep marks, that it changes nothing else, and that a second sweep finds none of them |
| TicketHistory.ChainSorts | migrations/app/000001_init.up.sql:72-76 | the chain read for a ticket is exactly its history rows, sorted by created_at or by id |
| TicketHistory.WriteKeepsPathIff | internal/usecase/usecase.go:202-233 | a commit keeps the history a path iff the status it read is still stored and the edge it records, if any, is the latest of the ticket |
| TicketHistory.ExecKeepsPathIff | internal/usecase/usecase.go:202-233 | the history is a path at every moment of a run iff every commit on the ticket meets that condition |
| TicketHistory.HistoryIsPath | internal/usecase/usecase.go:214-218 | then, from empty tables, it is a connected walk of allowed edges from open to the status, and closed is entered from resolved |
| TicketHistory.ClosedIsTerminalIff | internal/domain/entity/entity.go:81-91 | a closed ticket stays closed throughout a run iff every update of it that commits had read it closed or asks for closed |
| TicketHistory.ClosedIsTerminal | internal/domain/entity/entity.go:81-91 | in particular when every commit finds the status it read |
| TicketSerial.AloneIsUpdate | internal/usecase/usecase.go:192-242 | the protocol steps of an update, uninterrupted, change the tables as the use case's Update does, stamps included |
| TicketSerial.AloneIsCurrent | internal/usecase/usecase.go:197-237 | and commit on the status they read, whatever else is in flight |
| TicketSerial.AloneIsSlaOp | internal/usecase/usecase.go:192-242 | and leave the row that the stopwatch refinement speaks of |
| TicketSerial.InsertIsCreate | internal/usecase/usecase.go:171-187 | the protocol's creation leaves the use case's tables, with an open row due after its priority's duration |
| TicketSerial.ResolvedThenClosed | internal/domain/entity/entity.go:85 | after any run an open or pending ticket can be resolved and closed: both updates commit and append exactly these two edges |
| TicketSerial.EscalationIsUpdate | internal/usecase/usecase.go:260-274 | an uninterrupted escalation is an update with the next priority |
| TicketSerial.SerializedIsOrderly | internal/usecase/usecase.go:192-242 | on runs of whole updates, escalations and single statements every commit finds the status it read and carries the latest stamps |
| TicketSerial.SerializedHistoryIsPath | internal/usecase/usecase.go:214-218 | on every serialized run the history, in either order, is a connected walk of allowed edges from open to the status |
| TicketSerial.SerializedClosedIsTerminal | internal/domain/entity/entity.go:81-91 | on every serialized run a closed ticket stays closed |
| TicketTimeline.LastCommittedAgrees | internal/usecase/usecase.go:233-236 | in every run the ticket entry committed last, in order of commits, agrees with the row on every written column |
| TicketTimeline.LastEntryIsLast | internal/adapter/repository/postgres/repository.go:165-166 | the timeline's last ticket entry is one of the ticket's and none began later |
| TicketTimeline.WriteKeepsTimelineIff | internal/adapter/repository/postgres/repository.go:147-166 | a commit keeps that entry in agreement with the row iff no committed entry of the ticket began later or it changes no column |
| TicketTimeline.TimelineAgreesIff | internal/adapter/repository/postgres/repository.go:147-166 | the entry agrees with the row throughout a run iff every commit on the ticket meets that condition |
| TicketTimeline.SerializedTimelineAgrees | internal/usecase/usecase.go:233-236 | so it does throughout every serialized run |
| TicketOverlaps.PendingUnpaused | internal/usecase/usecase.go:220-225 | a run from empty tables that ends pending with a running clock |
| TicketOverlaps.EscalationLowers | internal/usecase/usecase.go:260-274 | a run from empty tables in which an escalation takes an urgent ticket to medium |
| TicketOverlaps.ClosedCanBeReopened | internal/usecase/usecase.go:197-237 | from every sound state with a resolved ticket two overlapping updates close and then reopen it and break its history |
| TicketOverlaps.ClosedReopened | internal/usecase/usecase.go:197-237 | such a run from empty tables |
| TicketOverlaps.CurrentYetNoPath | internal/usecase/usecase.go:214-233 | a run from empty tables in which every commit finds the status it read and the recorded edges are still no path in either order |
| TicketOverlaps.TimelineLags | internal/adapter/repository/postgres/repository.go:165-166 | a run from empty tables after which the timeline ends with columns the row no longer has |
| Worker.Loop.BreachJob | cmd/worker/main.go:36-50 | marks all qualifying tickets and adds one audit row and event for exactly those whose calls got through; equals the protocol's sweep and one report step per due ticket |
| Worker.Loop.ReportAll | cmd/worker/main.go:42-49 | the row loop reports each returned ticket once |
| Worker.Loop.Report | cmd/worker/main.go:47-48 | one audit attempt and one publish attempt |
| Worker.Loop.EscalationJob | cmd/worker/main.go:51-61 | takes the oldest job and publishes it if it decodes |
| RefreshTokens.ExchangedAtMostOnce | internal/adapter/repository/postgres/repository.go:55-68 | in every interleaving no token is exchanged by two committed refreshes and none comes out of two |
| RefreshTokens.OneChainPerLogin | internal/usecase/usecase.go:91-127 | each login's tokens form one chain of exchanges in which only the last can be unrevoked |
| RefreshTokens.LiveTokensCount | internal/usecase/usecase.go:103-130 | a user's unrevoked tokens number logins minus effective logouts |
| RefreshTokens.ExecRotates | internal/usecase/usecase.go:111-127 | locks, chains, exchanges and counts are kept by every run |
| RefreshTokens.CommitKeepsLocks | internal/infrastructure/database/database.go:39-49 | what each open transaction read under its lock stays true when another commits |
| RefreshTokens.CommitExtendsChain | internal/usecase/usecase.go:111-127 | a committed refresh appends to the end of one chain and touches no other |
| RefreshTokens.LeftAlone | internal/usecase/usecase.go:111-130 | a live token that no other request presents stays the live end of its chain in every interleaving |
| RefreshTokens.LogoutCounts | internal/adapter/repository/postgres/repository.go:69-72 | a logout ends at most one live token |
| AuthUsecase.Auth.ConsumeRefresh | internal/adapter/repository/postgres/repository.go:55-68 | unauthorized unless readable, known, unrevoked and unexpired; otherwise revokes and names the user |
| AuthUsecase.Auth.Issue | internal/usecase/usecase.go:91-102 | inserts one unrevoked row under the unique hash, or changes nothing |
| AuthUsecase.Auth.Login | internal/usecase/usecase.go:103-110 | issues iff the credentials identify a user and every call gets through |
| AuthUsecase.Auth.Refresh | internal/usecase/usecase.go:111-127 | rotates iff the token is stored, unrevoked and unexpired, the next one is new and every call gets through; otherwise the table is unchanged; with every call through it is the protocol's refresh |
| AuthUsecase.Auth.Logout | internal/usecase/usecase.go:128-130 | revokes the presented token if it is stored |
| AuthUsecase.AloneIsRefresh | internal/usecase/usecase.go:111-127 | lock, check, issue and commit uninterrupted rotate the token iff it is unrevoked and unexpired and the next one is new |
| AuthUsecase.RefreshInProtocol | internal/usecase/usecase.go:111-127 | the same for any token from any reachable world without open transactions |
| Client.Browser.RefreshStore | web/src/api.ts:22-38 | the store is replaced iff the server rotated; otherwise store and server are unchanged |
| Client.Browser.OthersKeepAgreement | web/src/api.ts:22-63 | other clients' requests, in any interleaving, leave the stored token the live end of its chain |
| Client.Browser.Fetch | web/src/api.ts:49 | what one request does to the token table |
| Client.Browser.Api | web/src/api.ts:40-63 | at most three fetches; afterwards the store is empty or holds the unrevoked last token of its login's chain; exact outcome, store and table for plain, login and logout calls |
| Client.Browser.LogIn | web/src/App.tsx:42-43 | a successful login's tokens are stored and end their chain |
| Client.Browser.LogOut | web/src/App.tsx:157-163 | the store is empty afterwards and a delivered logout has revoked the token |
| RateLimiter.Limiter.Allow | internal/infrastructure/redis/ratelimit.go:16-28 | one call changes only its key, by prune, count, add and expire; with steady clocks it allows if fewer than limit attempts in nanoseconds are younger than the window and refuses if limit of them are so by a millisecond |
| RateLimiter.CountedIff | internal/infrastructure/redis/ratelimit.go:20-23 | whatever the clocks do, a call counts an earlier attempt iff neither key expiry nor a prune removed it on the way |
| RateLimiter.CountedNanoseconds | internal/infrastructure/redis/ratelimit.go:17-22 | on the program's clock a call counts every attempt a millisecond younger than the window and none as old as the window |
| RateLimiter.LimiterSafety | internal/infrastructure/redis/ratelimit.go:20-27 | with readings at most d ahead of later ones and no early expiry, any group of allowed calls spanning less than window-d has at most limit members |
| RateLimiter.SkewedClocks | internal/infrastructure/redis/ratelimit.go:17-23 | both hold when the readings follow the server's clock within a skew of d |
| RateLimiter.StillCounted | internal/infrastructure/redis/ratelimit.go:20-21 | then an attempt less than window-d old is still counted, whatever calls ran in between |
| RateLimiter.CountedSandwich | internal/infrastructure/redis/ratelimit.go:20-27 | and the counted entries lie between the log's attempts within window-d and within window |
| RateLimiter.LimiterRefinesLogIff | internal/infrastructure/redis/ratelimit.go:20-27 | for monotone readings every call counts exactly the log's attempts in its window iff every consecutive pair a window apart on the server is so by its readings |
| RateLimiter.LimiterRefinesLog | internal/infrastructure/redis/ratelimit.go:20-27 | then a call is allowed iff fewer than limit earlier attempts lie in its window |
| RateLimiter.ExpiryIsRedundantIff | internal/infrastructure/redis/ratelimit.go:23 | for monotone readings key expiry drops nothing at a call that pruning would keep iff that call meets the same condition |
| RateLimiter.LateReplyAdmitsTwo | internal/infrastructure/redis/ratelimit.go:20-27 | monotone readings alone admit two calls one millisecond apart under a limit of one |
| Migration.SortSorts | pkg/migration/manager.go:28 | the sort keeps the entries and orders them strictly by name |
| Migration.EligibleIff | pkg/migration/manager.go:30-32 | the entries read are the files whose name is p.up.sql for some p |
| Migration.VersionOfName | pkg/migration/manager.go:33-36 | a name that starts with a number and an underscore has that number as its version iff it fits 64 signed bits |
| Migration.VersionNeedsNumber | pkg/migration/manager.go:33-36 | no other prefix has a version |
| Migration.ValueIsDecimal | pkg/migration/manager.go:33 | digits count in base ten |
| Migration.RanIsPrefix | pkg/migration/manager.go:29-63 | what a run applies under given failures is a prefix of what is outstanding, all of it iff it succeeds |
| Migration.OnlyUpScriptsMatter | pkg/migration/manager.go:24-32 | directories with the same files p.up.sql, in any order and with anything beside them, are migrated alike |
| Migration.DownScriptsDoNotMatter | pkg/migration/manager.go:30-32 | adding files named p.down.sql changes neither what is applied nor the success |
| Migration.Resumes | pkg/migration/manager.go:29-63 | a rerun continues exactly where a failed run stopped; after a complete run nothing is outstanding |
| Migration.Manager.ApplyAll | pkg/migration/manager.go:29-63 | applies a prefix of the outstanding scripts, all of them on success, and succeeds when nothing fails |
| Migration.Manager.Migrate | pkg/migration/manager.go:20-64 | a whole run over an unsorted directory: a prefix of the plan, all of it on success; only files named p.up.sql are applied, and on success the version of every such file is |
| MigrationOrder.AppliesInVersionOrder | pkg/migration/manager.go:28-33 | distinct digit prefixes of one width are applied in strictly increasing version order |
| MigrationOrder.LessIsNumeric | pkg/migration/manager.go:28-33 | on digit strings of equal width name order is numeric order |
| MigrationRunners.CommitsAtMostOnce | pkg/migration/manager.go:37-61 | with any number of interleaved runners each version commits at most once |
| MigrationRunners.LogIsPlanPrefix | pkg/migration/manager.go:28-64 | with any number of interleaved runners over one directory the applied scripts are always a prefix of what one run applies, and all of it once a runner finishes |
| MigrationRunners.FinishedRunLeavesNothing | pkg/migration/manager.go:29-63 | a runner that finishes leaves every eligible version applied, whoever applied it |
| MigrationRunners.AloneIsMigrate | pkg/migration/manager.go:29-64 | a runner that nothing interrupts applies what one run of the manager applies, and finishes iff that run succeeds |
| Base64.RoundTrip | internal/usecase/usecase.go:46-60 | unpadded base64 decodes to what was encoded and never contains a dollar sign |
| Base64.AlphabetIs | internal/usecase/usecase.go:46-60 | the alphabet of section 4 of RFC 4648, in both directions |
| Base64.TestVectors | internal/usecase/usecase.go:46 | the test vectors of section 10 of RFC 4648, unpadded |
| Base64.CleanDecodesIff | internal/usecase/usecase.go:54-60 | text without line breaks decodes iff it keeps to the alphabet and leaves no single character over |
| Base64.BreakIsSkipped | internal/usecase/usecase.go:54-60 | a line break anywhere changes nothing |
| Password.SplitJoin | internal/usecase/usecase.go:49 | splitting undoes joining when no part holds the separator |
| Password.RecordText | internal/usecase/usecase.go:46 | the record's literal text |
| Password.AcceptsExactly | internal/usecase/usecase.go:40-63 | the record of p, with a key of 32 bytes, accepts q iff the key derivation agrees on both |
| Password.AcceptsFields | internal/usecase/usecase.go:48-63 | any text is accepted iff it has five fields, the last two decode and the derived key has the bytes of the last |
| Password.RecordsAreInjective | internal/usecase/usecase.go:46 | equal records have equal salts and keys |
| UuidV7.NewWithTime | pkg/uuidv7/uuidv7.go:15-24 | the sixteen bytes filled in place are the specified layout |
| UuidV7.LayoutFields | pkg/uuidv7/uuidv7.go:15-24 | time, version, variant and all other random bits read back |
| UuidV7.EarlierIsSmaller | pkg/uuidv7/uuidv7.go:17-19 | an earlier millisecond gives a bytewise smaller identifier |
| Attachments.Local.Put | internal/adapter/storage/local.go:34-55 | exclusive create, at most one byte more than announced; success iff the object is exactly the announced source |
| Attachments.Uploads.UploadAttachment | internal/adapter/http/v1/handler/attachments.go:32-88 | a row is added iff every step succeeds, and then its object is stored |
| Attachments.AloneIsUpload | internal/adapter/http/v1/handler/attachments.go:50-86 | check, put and insert uninterrupted leave a row iff the size is 1 to 10 MiB, fewer than 10 rows were there and the object was stored whole under a new key |
| Attachments.CapHolds | internal/adapter/http/v1/handler/attachments.go:61-86 | with at most k uploads in flight a ticket has at most 9+k rows |
| AttachmentCap.CapIsReached | internal/adapter/http/v1/handler/attachments.go:61-86 | and 9+k rows are reached |
| Attachments.RowsAreBacked | internal/adapter/storage/local.go:34-55 | every row refers to a stored object of exactly its size, for ever |

## Left out

- Sub-microsecond clock digits: a due time is taken as the database stores it.
- A commit whose outcome is unknown is modelled as a rollback.
- Titles, categories and the timestamps of tickets: no branch reads them.
- Equal stamps: two transactions that begin within one microsecond, or two ids within one millisecond, are ordered as their steps; all stamps come from one clock.
- Foreign keys of the tickets table: a violated one is a failed write.
- Entity.Ticket.ResumeSLA: does not model 64-bit overflow of a duration; the proved bound of 72 hours on the remaining seconds keeps it out of reach.
- RateLimiter.Limiter.Allow: takes the window in whole seconds, as EXPIRE and all callers do, and assumes distinct set members; in nanoseconds it says nothing about attempts less than a millisecond younger than the window, because the scores are whole milliseconds.
- RateLimiter.LimiterSafety: gives a sufficient condition; a run that violates it may still stay under the limit.
- RateLimiter.LimiterRefinesLog: assumes readings since the Unix epoch, because pruning starts at score 0.
- AuthUsecase.Auth.Login: the account lookup and the password check arrive as an optional user id; the check itself is in Password.
- JWT signing, Argon2 and SHA-256: the key derivation is a parameter and tokens are identified with their hashes.
- replaced_by and token-family revocation: in the schema and the documents, never written by the code.
- Client.Browser.Api: other clients' requests between the fetches of one call are not interleaved; between calls they are covered by OthersKeepAgreement.
- Lost responses and overlapping calls of one browser: excluded from the client statements.
- Down migrations and the effect of a script on the schema: a script is its text.
- Comments, the WebSocket hub, HTTP plumbing, tags, canned replies, filters, search and teams: single statements or single branches.
- cmd/seed: it writes rows that no use case produces; all runs start from Create.
