# Verification models of the Telegram bot crate

Ten stateful parts of `crates/bot` are modelled here in Dafny 4.11, with proofs of what they
promise over every run, every input and every point of failure. Everything around them (the
owner database, Telegram, the guest machine, the clock, parsers, hashes) is an environment
that may answer anything, or fail, at any call.

`dafny verify dfyconfig.toml` checks the whole project.

| part | modules |
|---|---|
| Delivery of finished runs: requests raced against shutdown, the send phase, the owner, the round, safety over all runs, the verdicts recorded, the shutdown flush, the ledger | `TelegramRequest`, `DeliverySend`, `DeliveryOwner`, `DeliveryFetch`, `DeliveryLoop`, `DeliverySafety`, `DeliveryVerdicts`, `DeliveryFlush`, `DeliveryLedger` |
| The managed block of `.bashrc` and the `printf %b` argument | `ManagedBlock`, `ManagedBlockForm`, `ManagedBlockLaws`, `PrintfB` |
| Bounded readers of the health probe | `ProbeStreams`, `ProbeHealth`, `ProbeStderr` |
| Staging of the Claude runtime, guest and host | `RuntimeGuest`, `RuntimeActivation`, `RuntimeHost` |
| Sandbox handle and supervisor | `SandboxRuntime`, `SandboxSupervisor` |
| Provider secrets | `ProviderReconcile` |
| Idle-compaction timers | `IdleCompaction` |
| Curator gate and circuit breaker | `CuratorGate` |
| Config watcher | `ConfigWatcher` |
| Cron reconciler and result stream | `CronReconciler`, `CronStream` |

How the environment enters: a delivery round takes one `Round` record with every answer it may
get; guest and host commands, consumers of the sandbox handle and callers of the cron owner
act through `*` choices inside the methods, between any two accesses to shared state. A
failed write may have been applied. A ghost `trace`, `history` or `log` records what the
outside can see, and the safety claims are about all of it.

## Where the code and its description differ

- The owner clamps the fetch limit to 100 rows (`crates/right/src/db_owner_ops.rs:537`), so the
  batched fetch finds a row outside the remembered set only while fewer than 100 ids are
  remembered: `FetchNeverStarvesIff`.
- A row whose "denied", "no target" or "failed" mark fails without being applied is only
  remembered, and a later fetch marks it "delivered": `TruthfulIffVerdictKept` says exactly when
  the ledger stays true, `NeverSentYetDelivered` shows a run recorded as delivered and never sent.
- The rewrite of `.bashrc` normalises files in which no stretch kept between two spans ends in a
  line with `#` (`PlainLinesNormalise`). Otherwise text glued together by removing a mid-line block can
  form a new marker: `GluedMarker`, with the exact condition in `OneBlockIff` and `IdempotentIff`.
- `current_sandbox` is described as `Some` exactly when ready. Between the two stores of
  `set_ready` and `set_unavailable` a sandbox is visible that is not ready; only "ready implies
  a sandbox" holds at all times (`SetReady` names the state in between).
- A provider reload that gives up is not carried over to the next one: `FailedReloadForgets`.
- The comment on `arm` says the map entry stays until the next `arm` or `cancel`; the drop guard
  removes it when the task ends uncancelled. The model follows the code.
- The last log line of a delivery given up says "marking as delivered"; the status written is
  "failed". The model follows the code.
- "Force-notify runs are never held" is true of the row looked at, which is the oldest open one: a
  forced row behind an unforced one waits for the chat to be idle (`ForcedRowIsHeld`).
- A deadline that falls between a request's entry check and its first wake-up ends it as "outcome
  unknown" although nothing was sent; the row is then marked "failed" for good
  (`UnknownUnpolledIff`).
- The watcher reads `agent.yaml` again after start-up parsed it. An edit in between goes unnoticed:
  `StaleAfterRaceIff` says which cells are stale and until when.

## Model

| member | source | states |
|---|---|---|
| TelegramRequest.RunTelegramRequest | crates/bot/src/async_delivery.rs:755-824 | The two selects, wake-up by wake-up, are `RequestOutcome`; the lemmas below say what that outcome can be |
| TelegramRequest.InterruptedIff | crates/bot/src/async_delivery.rs:760-790 | "Interrupted" exactly when shutdown came before the first poll and nothing had been sent before |
| TelegramRequest.UnknownUnpolledIff | crates/bot/src/async_delivery.rs:760-799 | Exactly when a request that was never polled ends as "outcome unknown": after an earlier side effect, or when a deadline falls between the entry check and the first wake-up |
| TelegramRequest.AnswerIsTheRequests | crates/bot/src/async_delivery.rs:775-824 | An answer is the first one the request itself gave, and the request was polled |
| TelegramRequest.DeadlineEndsRequest | crates/bot/src/async_delivery.rs:788-799 | With a deadline given, no schedule leaves the request open past it |
| TelegramRequest.CancelEndsWithinGrace | crates/bot/src/async_delivery.rs:801-818 | A cancel during a polled request ends it by the grace deadline, with its own answer or "outcome unknown" |
| TelegramRequest.AnsweredIff | crates/bot/src/async_delivery.rs:755-824 | Exactly when a request ends with its first answer: no stop at the entry, every wake-up before it within the deadline, or not cancelled at the first and no more than the 15 seconds of grace after the first cancel |
| DeliverySend.DeliverThroughSession | crates/bot/src/async_delivery.rs:1107-1219 | The send phase from the parsed reply on, request by request, is the attempt that the next two lemmas are about |
| DeliverySend.AttemptLaws | crates/bot/src/async_delivery.rs:1116-1219 | A retryable or interrupted attempt put no body text into Telegram; one whose body may have arrived is final; success means something was sent |
| DeliverySend.InterruptedSentNothing | crates/bot/src/async_delivery.rs:755-790 | The phase is interrupted exactly when shutdown beats the first poll of the request it stops at, with nothing delivered before; then nothing is delivered |
| DeliverySend.OutcomesAreHonest | crates/bot/src/async_delivery.rs:768-811 | Whatever the wake-ups, an interrupted request is an unpolled one, and none is interrupted after a side effect |
| DeliverySend.TextIsReported | crates/bot/src/async_delivery.rs:1116-1219 | What an attempt with text reports for each answer: the text counts as sent if any of it arrived, and then a failing attachment is dropped; otherwise it means a retry |
| DeliverySend.AttachmentsAreReported | crates/bot/src/async_delivery.rs:1137-1219 | What an attempt with attachments alone reports for each answer to the header, its plain form and the files |
| DeliverySend.NothingToSend | crates/bot/src/async_delivery.rs:1107-1115 | Without a reply to send only shutdown interrupts, everything else is retried |
| DeliveryOwner.Owner.FetchPending | crates/right/src/db_owner_ops.rs:536-539 | The owner serves the oldest pending rows, never more than 100; below that, one more than the rows remembered, at least 25, or all there are |
| DeliveryOwner.Owner.MarkOutcome | crates/right/src/db_owner_ops.rs:540-550 | A mark takes the row off the pending list; a mark that fails may have done so |
| DeliveryOwner.Owner.DeduplicateJob | crates/right/src/db_owner_ops.rs:551-577 | The newest pending row of a job wins, forced when any row of its group is; the others are superseded |
| DeliveryFetch.FetchNextPending | crates/bot/src/async_delivery.rs:23-44 | The batch loop marks the remembered rows at its front and stops at the first other row or the first failed mark |
| DeliveryFetch.BatchRefinesFullFetch | crates/bot/src/async_delivery.rs:23-44 | With honoured marks, the batched fetch equals the search over the whole pending list whenever the batch holds a row outside the set or all rows |
| DeliveryFetch.SmallSetNeverStarves | crates/bot/src/async_delivery.rs:28-43 | With fewer than 100 remembered ids the batch always reaches a row outside the set if there is one (pigeonhole) |
| DeliveryFetch.FetchNeverStarvesIff | crates/bot/src/async_delivery.rs:28 | The fetch can starve a row exactly when 100 or more ids are remembered, because the owner clamps the limit |
| DeliveryFetch.FullWindowHidesARow | crates/right/src/db_owner_ops.rs:537 | For every set of 100 or more ids there is a pending list whose only open row the fetch does not see |
| DeliveryFetch.StarvedFetchDrainsTheWindow | crates/bot/src/async_delivery.rs:36-42 | A fetch that misses a row has marked its whole window, so the next fetch moves on |
| DeliveryLoop.DeliveryLoopState.RunDeliveryOnce | crates/bot/src/async_delivery.rs:394-654 | One round over the state and the owner, with every early return, is `Step` of the world it met |
| DeliveryLoop.DeliveryLoopState.DeliverRow | crates/bot/src/async_delivery.rs:425-555 | Idle gate, in-memory check, target, session and payload checks in order, then the attempt |
| DeliveryLoop.DeliveryLoopState.CloseAttempt | crates/bot/src/async_delivery.rs:556-652 | How each ending of an attempt changes the owner, the remembered set and the attempt count |
| DeliverySafety.StepKeepsInv | crates/bot/src/async_delivery.rs:394-654 | Every round keeps: at most one landing and three retries per run, and a landed or spent run is over |
| DeliverySafety.LandsAtMostOnce | crates/bot/src/async_delivery.rs:394-654 | Over every run of one state, with owner, sends and shutdown failing at will, each run id has at most one attempt that may put its body into Telegram |
| DeliverySafety.LandedOrSpentIsOver | crates/bot/src/async_delivery.rs:594-650 | After such an attempt, or three retryable failures, the id is terminal at the owner or remembered; never more than three are retried |
| DeliverySafety.OverIsNeverAttempted | crates/bot/src/async_delivery.rs:440-454 | A round never attempts an id that is remembered or terminal |
| DeliverySafety.AttemptsArePermitted | crates/bot/src/async_delivery.rs:432-555 | An attempt is made exactly for a picked row that is not remembered, readable, for an allowed chat with its session found, and forced, in the flush, or after two idle minutes |
| DeliverySafety.ForcedRowIsHeld | crates/bot/src/async_delivery.rs:323-328 | A forced row behind an older unforced one is held while the chat is busy |
| DeliverySafety.FinishedStaysFinished | crates/bot/src/async_delivery.rs:394-654 | A run the owner has finished never becomes pending again |
| DeliveryVerdicts.PickLaw | crates/bot/src/async_delivery.rs:80-100 | The oldest row not remembered is picked as it is, or stands for its job: then the newest of the job, late arrivals included, forced when any is, with the others overtaken |
| DeliveryVerdicts.NewestIsLast | crates/right/src/db_owner_ops.rs:551-577 | The winner of a job is its last row in the order of finishing |
| DeliveryVerdicts.OpenRowMeansPick | crates/bot/src/async_delivery.rs:23-44 | An owner that answers and honours marks always lets the round pick a row if one is open, below 100 remembered |
| DeliveryVerdicts.HeldIsUntouched | crates/bot/src/async_delivery.rs:432-439 | While the idle gate is closed the picked row stays as it is |
| DeliveryVerdicts.RememberedPickIsRecorded | crates/bot/src/async_delivery.rs:440-454 | A picked row that is remembered is recorded as delivered, and forgotten once that is confirmed |
| DeliveryVerdicts.UnattemptedIsRecorded | crates/bot/src/async_delivery.rs:456-555 | No chat is recorded as "no target", a chat not allowed as "denied", an unreadable row as "failed"; a failed session lookup leaves the row |
| DeliveryVerdicts.AttemptIsRecorded | crates/bot/src/async_delivery.rs:556-652 | A sent run is recorded as delivered, an unknown fate or a third failure as failed; until confirmed it is remembered; any other ending leaves the row pending |
| DeliveryVerdicts.SentIsRecorded | crates/bot/src/async_delivery.rs:562-577 | Sent means recorded as delivered, unless the mark is lost unapplied |
| DeliveryVerdicts.OthersAreUntouched | crates/bot/src/async_delivery.rs:394-654 | Rows and records of runs other than those picked, swept or overtaken are as before |
| DeliveryFlush.FlushRoundSpends | crates/bot/src/async_delivery.rs:594-650 | A round that reports progress spends at least one of the attempts still open, even if its marks are lost |
| DeliveryFlush.SmoothRoundEnds | crates/bot/src/async_delivery.rs:863-885 | When the owner answers and honours marks and the attempt ends of itself, a round without progress leaves exactly the rows behind the window, and none below the cap of remembered rows |
| DeliveryFlush.FlushReadyDeliveries | crates/bot/src/async_delivery.rs:831-886 | The flush is a sequence of rounds, each begun before the deadline and, but for the last, with progress; it stops at the deadline or at a round without progress, after at most three rounds per pending row and one more when no rows are added. A row is left pending only if the deadline passed, the last round was not smooth, or 100 rows were remembered |
| DeliveryLedger.TruthfulIffVerdictKept | crates/bot/src/async_delivery.rs:36-39 | Whatever was recorded before, a round keeps the ledger truthful exactly when it does not give up a row with a mark that fails without being applied |
| DeliveryLedger.RecordedMeansSent | crates/bot/src/async_delivery.rs:394-654 | From every start and over every run in which no verdict is lost, whatever is newly recorded as delivered was sent |
| DeliveryLedger.RememberedIsRecorded | crates/bot/src/async_delivery.rs:36-38 | A fetch whose first mark is honoured records the oldest row as delivered if it is remembered, sent or not |
| DeliveryLedger.NeverSentYetDelivered | crates/bot/src/async_delivery.rs:456-480 | A run without a chat whose mark is lost ends up recorded as delivered, with nothing ever attempted |
| ManagedBlock.EnsureSourcesManagedEnv | crates/bot/src/sync.rs:350-399 | The cursor loop terminates and computes `Rewrite`: text before the first span, the block, and the rest without its spans |
| ManagedBlock.LineEndAfter | crates/bot/src/sync.rs:410-420 | The three cases of the line end are one: just past the next line break, or the end |
| ManagedBlockForm.BlockIsAppended | crates/bot/src/sync.rs:393-398 | A file without markers keeps its text: trailing newlines give way to one blank line and the block |
| ManagedBlockForm.SpanIsManaged | crates/bot/src/sync.rs:371-385 | A managed span runs from a marker to the line end behind the first end marker, or behind the marker itself when none follows |
| ManagedBlockForm.StripLaw | crates/bot/src/sync.rs:366-391 | Stripping keeps the text between spans, and all of it where no marker is left |
| ManagedBlockForm.BlockReplacesFirstSpan | crates/bot/src/sync.rs:366-391 | With markers the block takes the place of the first span |
| ManagedBlockLaws.OneBlockIff | crates/bot/src/sync.rs:350-399 | One start and one end marker in the output, exactly when the kept tail holds no marker |
| ManagedBlockLaws.IdempotentIff | crates/bot/src/sync.rs:350-399 | Rewriting again changes nothing, exactly when the kept tail holds no marker |
| ManagedBlockLaws.UserTextKept | crates/bot/src/sync.rs:366-391 | With markers present, taking the block out of the output leaves the input without its managed spans |
| ManagedBlockLaws.PlainLinesNormalise | crates/bot/src/sync.rs:350-399 | For every file in which no stretch kept between two spans ends in a line with `#`: one block, idempotent, user text kept |
| ManagedBlockLaws.LineMarkersNormalise | crates/bot/src/sync.rs:769-848 | In particular for every file whose markers begin lines |
| ManagedBlockLaws.GluedMarker | crates/bot/src/sync.rs:366-391 | Mid-line blocks can glue a new marker together: then neither claim holds |
| ManagedBlockLaws.RightAgentWellFormed | crates/bot/src/cc/sandbox_env.rs:21-106 | The shipped markers and block have the form assumed above |
| PrintfB.PassesAreOneMap | crates/bot/src/sync.rs:422-427 | Four sequential replaces are one map over the characters |
| PrintfB.RoundTrip | crates/bot/src/sync.rs:422-431 | For every text, the `%b` conversion of the escaped text is the text, and meets no unspecified escape |
| PrintfB.EscapedIsOneLine | crates/bot/src/sync.rs:422-427 | No line break, carriage return or tab is left in the argument |
| PrintfB.OrderMatters | crates/bot/src/sync.rs:424 | With the backslash pass last, the texts that survive are exactly those without a newline |
| ProbeStreams.ReadProbeLine | crates/bot/src/keepalive.rs:737-763 | For every chunking: the next newline-ended piece of the stream, or an error exactly when it is over the bound |
| ProbeStreams.ProbeStdoutTail.Push | crates/bot/src/keepalive.rs:711-730 | Keeps the counter equal to the line sizes and within the bound, and the lines equal to the promised suffix of all lines pushed |
| ProbeStreams.LongestSuffixLaw | crates/bot/src/keepalive.rs:721-728 | The kept lines are the longest suffix that fits |
| ProbeStreams.CutIsLongest | crates/bot/src/keepalive.rs:713-718 | An over-long line is cut to its longest fitting suffix of whole characters, within three bytes of the bound |
| ProbeStreams.CutToBound | crates/bot/src/keepalive.rs:713-718 | The search for a character boundary ends, at that suffix |
| ProbeStreams.LineLaw | crates/bot/src/keepalive.rs:737-763 | A line is what comes up to its line feed; over the bound it is an error, and so is a stream that breaks off without one |
| ProbeStreams.RecentLaw | crates/bot/src/keepalive.rs:711-730 | Lines before an over-long one are dropped, and it is cut; without one nothing is dropped before the bound |
| ProbeHealth.ReadHealthProbeStdout | crates/bot/src/keepalive.rs:765-828 | The verdict is a function of the bytes, whatever their chunks |
| ProbeHealth.VerdictIff | crates/bot/src/keepalive.rs:765-828 | Exactly when each verdict is reached: repair by the latest status, a result, an error result without a rate limit in any line, the end, an over-long piece, a failed read, bytes that are not UTF-8 |
| ProbeHealth.ReportLaw | crates/bot/src/keepalive.rs:765-828 | What is reported of the lines: the latest status, the kept tail, a rate limit seen in any of them |
| ProbeHealth.TrimEolLaw | crates/bot/src/keepalive.rs:780-790 | A line loses one line feed and one carriage return before it, and nothing else |
| ProbeStderr.DrainProbeStderr | crates/bot/src/keepalive.rs:1038-1078 | After every read the tail is the last 8192 bytes read; the excerpt is that of the whole stream |
| ProbeStderr.FourBytesSuffice | crates/bot/src/keepalive.rs:1042-1044 | For every byte stream, valid UTF-8 or not, the last n characters can be read off the last 4n bytes |
| ProbeStderr.TextDecodes | crates/bot/src/keepalive.rs:1042-1044 | Every text of scalar values decodes to itself, character by character |
| ProbeStderr.StrayByteIsReplaced | crates/bot/src/keepalive.rs:1042-1044 | A byte that can start no character is replaced, alone |
| RuntimeActivation.Guest.ActivateArtifact | crates/bot/src/claude_runtime.rs:743-852 | Every command boundary is safe; success means a checked active artifact and nothing in flight; an error leaves the other versions alone, success spares the newest of them; without a failing command it succeeds from every leftover state |
| RuntimeActivation.LinkNeverBreaks | crates/bot/src/claude_runtime.rs:743-852 | Over any runs cut off anywhere: a verified active artifact stays one, and a link once moved leads to a verified one |
| RuntimeActivation.OldVersionsWait | crates/bot/src/claude_runtime.rs:743-852 | No other version is touched before the link leads to the new, checked one |
| RuntimeActivation.CutRunIsSafe | crates/bot/src/claude_runtime.rs:743-852 | A run that stops at any command boundary is still a safe run |
| RuntimeActivation.Guest.GuestArtifactMatches | crates/bot/src/claude_runtime.rs:689-709 | Says yes exactly to a root-owned, 0555, regular file of the right size and digest |
| RuntimeActivation.Guest.VerifyAndPublish | crates/bot/src/claude_runtime.rs:795-820 | The target is replaced only by an upload that passed every check |
| RuntimeActivation.Guest.EnsureTarget | crates/bot/src/claude_runtime.rs:767-832 | Brings a checked artifact to the target without touching the active link or other versions |
| RuntimeActivation.Guest.SwitchLink | crates/bot/src/claude_runtime.rs:834-841 | The link moves only by renaming a complete new link over it |
| RuntimeActivation.Guest.GcGuestVersions | crates/bot/src/claude_runtime.rs:711-741 | Leaves exactly the active artifact and the newest other file; stopped part-way, it has removed only older ones and changed none |
| RuntimeGuest.FirstIsNewest | crates/bot/src/claude_runtime.rs:736-737 | After the sort the spared entry is at least as new as every other |
| RuntimeHost.Host.DownloadVerified | crates/bot/src/claude_runtime.rs:471-547 | Success exactly for the right bytes (nothing else failing); a download never outgrows the artifact; wrong bytes are a hard error |
| RuntimeHost.Host.PrepareArtifactLocked | crates/bot/src/claude_runtime.rs:352-414 | Success means a good, executable entry; a good entry is never lost at any step; a bad one is gone unless something fails |
| RuntimeHost.Host.PruneStaleDownloads | crates/bot/src/claude_runtime.rs:322-350 | Leftover downloads go, or a link or directory among them stops the run |
| RuntimeHost.StageClaudeRuntime | crates/bot/src/claude_runtime.rs:854-868 | Success means the guest runs the pinned artifact; an intact download is all a fault-free run needs |
| SandboxRuntime.SandboxRuntimeHandle.SetReady | crates/bot/src/sandbox_runtime.rs:106-111 | Readers never see a ready backend without a sandbox; they do see a sandbox that is not ready yet |
| SandboxRuntime.SandboxRuntimeHandle.SetUnavailable | crates/bot/src/sandbox_runtime.rs:113-119 | The reverse order keeps the same promise |
| SandboxRuntime.SandboxRuntimeHandle.NoteAffected | crates/bot/src/sandbox_runtime.rs:92-97 | The chat is owed a notice from now on |
| SandboxRuntime.SandboxRuntimeHandle.ReportSuspectedFailure | crates/bot/src/sandbox_runtime.rs:100-102 | The channel of capacity one is non-empty afterwards |
| SandboxRuntime.SandboxRuntimeHandle.TakeAffected | crates/bot/src/sandbox_runtime.rs:121-125 | Takes every owed chat at once |
| SandboxRuntime.NotedThenDrained | crates/bot/src/sandbox_runtime.rs:91-125 | A noted chat is still in the set or was drained after its last note |
| SandboxRuntime.ReportedThenProbed | crates/bot/src/sandbox_runtime.rs:99-102 | A reported failure still waits in the channel or was followed by a probe |
| SandboxSupervisor.Supervisor.constructor | crates/bot/src/lib.rs:705-732 | Start-up seeds one sync task exactly when bring-up left a sandbox |
| SandboxSupervisor.Supervisor.MonitorStep | crates/bot/src/sandbox_supervisor.rs:472-556 | A waiting report is probed; the handle degrades exactly on a probe that fails on a sandbox not still booting, and then the sync task is aborted with it |
| SandboxSupervisor.Supervisor.RecoveryStep | crates/bot/src/sandbox_supervisor.rs:562-615 | Recovery never overwrites a sync task; success publishes, spawns and drains the chats; failures follow the backoff table |
| SandboxSupervisor.Supervisor.RunSupervisor | crates/bot/src/sandbox_supervisor.rs:618-647 | At every loop head the only running task is the owned one, present exactly when ready and on the current sandbox; none is left at the end |
| SandboxSupervisor.Supervisor.NotifyBackOnline | crates/bot/src/sandbox_supervisor.rs:671-681 | Every drained chat gets exactly one notice |
| SandboxSupervisor.PausesGrow | crates/bot/src/sandbox_supervisor.rs:394-398 | Pauses never shrink in a row of failures and stay within 5 and 30 seconds |
| SandboxSupervisor.PauseSchedule | crates/bot/src/sandbox_supervisor.rs:394-398 | 5, 10, 15 and 15 seconds, then 30 for good |
| ProviderReconcile.SandboxHandle.HotReconcileProviders | crates/bot/src/sandbox_supervisor.rs:338-392 | Success exactly when the bindings resolve and none of the needed calls fails; it reaches the goal; a failure at any point leaves a state from which the goal is unchanged |
| ProviderReconcile.SandboxHandle.ReconcileWithRetries | crates/bot/src/lib.rs:743-821 | At most three attempts, none after a success or a shutdown; an attempt in which nothing fails succeeds; whichever succeeds leaves the secrets of a first success |
| ProviderReconcile.RetriesConverge | crates/bot/src/lib.rs:772-818 | After any partly applied failures a success leaves the same secrets as one at the first attempt |
| ProviderReconcile.GoalByVariable | crates/bot/src/sandbox_supervisor.rs:355-390 | Every desired binding is bound, every managed undesired one is gone, every other secret is untouched |
| ProviderReconcile.ReconcileIsIdempotent | crates/bot/src/sandbox_supervisor.rs:338-392 | Rerunning changes nothing |
| ProviderReconcile.LeftoverIff | crates/bot/src/sandbox_supervisor.rs:362-368 | The credentials of Right that stay bound though undesired are exactly those that neither declaration names |
| ProviderReconcile.UndeclaredHasACause | crates/bot/src/lib.rs:761-818 | Over every run of reloads, failed ones too: a credential of Right that the latest declarations do not name was there from the start, or a reload bound it undeclared, or dropped it and gave up |
| ProviderReconcile.LeftoverHasACause | crates/bot/src/lib.rs:761-818 | A credential that a successful reload leaves bound though undesired has such a cause before that reload |
| ProviderReconcile.FailedReloadForgets | crates/bot/src/lib.rs:774-804 | A reload that gave up is forgotten: the next success leaves its credential bound |
| ProviderReconcile.ManagedVars | crates/bot/src/sandbox_supervisor.rs:105-158 | Exactly the variables of the declared providers that have one |
| IdleCompaction.CompactTimers.Arm | crates/bot/src/idle_compaction.rs:323-340 | The old token is cancelled, a fresh one takes its place, and a task sleeps on it |
| IdleCompaction.CompactTimers.Cancel | crates/bot/src/idle_compaction.rs:309-313 | The entry goes and its token is cancelled |
| IdleCompaction.CompactTimers.Finish | crates/bot/src/idle_compaction.rs:103-109 | The end of a task takes its entry unless its token was cancelled, and releases the session lock |
| IdleCompaction.CompactTimers.OnTurnEnd | crates/bot/src/idle_compaction.rs:344-358 | Arms, cancels or leaves alone, by model and footprint |
| IdleCompaction.CompactTimers.StartCompaction | crates/bot/src/idle_compaction.rs:151-205 | Re-checks, then takes a free session lock or gives up without waiting |
| IdleCompaction.RunsKeepInv | crates/bot/src/idle_compaction.rs:98-340 | Over all runs the timer map and the uncancelled tasks correspond one to one, and locks to the compactions that hold them |
| IdleCompaction.AtMostOneActive | crates/bot/src/idle_compaction.rs:98-340 | At most one uncancelled timer or compaction per session |
| IdleCompaction.CompactionsExclude | crates/bot/src/idle_compaction.rs:191-205 | A compaction holds its session lock; no two share a session |
| IdleCompaction.CancelReachesAll | crates/bot/src/idle_compaction.rs:309-313 | After a cancel nothing uncancelled is left for the key, and other keys are as before |
| IdleCompaction.FinishSparesNewer | crates/bot/src/idle_compaction.rs:103-109 | A finished task never removes the entry of a newer one |
| IdleCompaction.TurnEndLeaves | crates/bot/src/idle_compaction.rs:344-358 | After a turn the key has exactly one fresh timer or none; an unreadable footprint changes nothing |
| IdleCompaction.ArmLeaves | crates/bot/src/idle_compaction.rs:323-340 | After an arm the key has one fresh, sleeping, uncancelled timer; other keys are as before |
| IdleCompaction.StartsExactlyWhen | crates/bot/src/idle_compaction.rs:159-205 | A compaction starts exactly for a long-context Opus at 400 000 tokens or more, with a session whose lock is free |
| IdleCompaction.SplitDropLosesTimer | crates/bot/src/idle_compaction.rs:103-109 | Were the check and the removal interleaved with a turn end, a timer would escape every cancel |
| CuratorGate.Curator.RunIfDue | crates/bot/src/learning_curator.rs:448-748 | Every early return, seeding, report-only and both results, as the trace model has them |
| CuratorGate.PassesExactlyWhenDue | crates/bot/src/learning_curator.rs:81-177 | A pass is stamped exactly when all gates are open and some trigger fires |
| CuratorGate.PassesAreSpaced | crates/bot/src/learning_curator.rs:104-112 | With successful saves, stamped passes start at least the cooldown apart, for any clock |
| CuratorGate.FailuresInARow | crates/bot/src/learning_curator.rs:115-131 | Failure n in a row starts at least (threshold - 1) cooldowns and (n - threshold) circuit openings after the first |
| CuratorGate.FailuresWait | crates/bot/src/learning_curator.rs:351-363 | Each further failure of a row waits out the gap its count prescribes, through any other passes |
| CuratorGate.LostSaveRepeats | crates/bot/src/learning_curator.rs:385-397 | A pass whose save is lost is repeated at once |
| CuratorGate.GarbledNeverRuns | crates/bot/src/learning_curator.rs:522-531 | A stored time that does not parse stops the curator for good |
| CuratorGate.FirstRunOnlySeeds | crates/bot/src/learning_curator.rs:464-480 | The first invocation stores its time and does nothing else |
| CuratorGate.KindFollowsCourse | crates/bot/src/learning_curator.rs:690-746 | A pass is failed exactly when its course fails, succeeded exactly when it succeeds, and a proposal exactly in report-only mode |
| CuratorGate.PassLeaves | crates/bot/src/learning_curator.rs:351-363 | A stored failure counts one more and opens the circuit from the threshold on; a success resets both; a proposal changes neither |
| CuratorGate.DecisionLaw | crates/bot/src/learning_curator.rs:81-177 | Each decision, skips included, with the exact condition under which it is the one |
| ConfigWatcher.ClassifyByFields | crates/bot/src/config_watcher.rs:54-119 | Restart exactly when a fixed field differs, provider reload exactly when besides hot fields only the providers do |
| ConfigWatcher.Watcher.OnEvent | crates/bot/src/config_watcher.rs:169-247 | One event in place, as the event function that the laws below are about |
| ConfigWatcher.Watcher.Watch | crates/bot/src/config_watcher.rs:165-249 | The thread handles the events in order and ends at the first that needs a restart |
| ConfigWatcher.WatchLaw | crates/bot/src/config_watcher.rs:165-249 | From every first reading and over all events: restart exactly when some event is unreadable, unparsable or differs from that reading in a fixed field; otherwise the exact cells |
| ConfigWatcher.FollowsTheFile | crates/bot/src/config_watcher.rs:165-249 | When the watcher first reads what the start-up parsed: cells and providers of the last file, fixed fields of the boot |
| ConfigWatcher.StaleAfterRaceIff | crates/bot/src/config_watcher.rs:151-167 | After an edit between the parse and the first reading: for each cell exactly when it agrees with the file again; a fixed field stays stale |
| ConfigWatcher.UnparsableFirstReading | crates/bot/src/config_watcher.rs:151-167 | A first reading that does not parse is noticed exactly by a reading that differs from it |
| CronReconciler.Reconciler.ReconcileJobs | crates/bot/src/cron.rs:2329-2521 | After a tick whose specs could be read: the table is exactly the loop jobs under equal specs, unchanged jobs keep their loop, live loops are the table's; exactly the triggers whose clear succeeds with no fresh lock are executed |
| CronReconciler.SameConfigIff | crates/right-agent/src/cron_spec.rs:196-206 | Two specs are the same configuration exactly when they differ in nothing but the trigger |
| CronReconciler.Reconciler.AbortStale | crates/bot/src/cron.rs:2404-2416 | Exactly the loops of removed or changed jobs are aborted |
| CronReconciler.Reconciler.SpawnMissing | crates/bot/src/cron.rs:2418-2461 | Exactly the jobs with a loop kind and no loop get one |
| CronReconciler.Reconciler.FireTriggered | crates/bot/src/cron.rs:2463-2521 | The pending trigger is executed exactly when the owner clears it and no fresh lock is in the way; what is executed is never pending again |
| CronReconciler.Reconciler.Ticks | crates/bot/src/cron.rs:2329-2521 | Over any ticks, with specs edited and jobs triggered in between, each trigger executes at most once |
| CronReconciler.CronOwner.ClearTriggered | crates/bot/src/cron.rs:2466-2477 | Clears the one job, whatever trigger it holds by then, and no other; a failing call may have done so |
| CronStream.ConsumeCronLines | crates/bot/src/cron.rs:1936-1970 | Keeps the shortest prefix that ends in a terminal result, or everything |
| CronStream.ScanFindsTerminal | crates/bot/src/cron.rs:1717-1722 | The backward scan finds the very line the reader stopped at; without one at most a nested result |
| CronStream.SucceedsIff | crates/bot/src/cron.rs:1871-1878 | Success exactly for a terminal result that is no error |
| CronStream.SuccessIsNoFailure | crates/bot/src/cron.rs:1977-2003 | A success is never classified as failed, and its output is the terminal line's |
| CronStream.TerminalIff | crates/bot/src/cron.rs:1871-1878 | Which lines are terminal results, and with which error flag |
| CronStream.SuccessOutput | crates/bot/src/cron.rs:1977-2003 | The output of a success is decoded from the structured output, or from the plain result where that is absent or null |
| CronStream.TerminalErrorIsExplained | crates/bot/src/cron.rs:1778-1783 | A terminal error always fails the run and is the one explained |
| CronStream.NestedResultIff | crates/bot/src/cron.rs:1977-1985 | Without a terminal result the scans still find a result exactly when a nested one was kept |

## Left out

- No-duplicate delivery across processes, or across the normal loop and the flush: the remembered
  set is not carried over, so the claims are per `DeliveryLoopState`.
- Telegram's error answers are taken at face value: a request that answers an error is taken to
  have sent nothing beyond what its answer reports.
- The owner's request ids and idempotent replay of a mark; rows that finish at the same instant
  are ordered by their place in the list; new rows carry new run ids.
- What a delivery does before the parsed reply (locks, subprocess, prompt) is one of three
  openings; outbox clean-up and the update of the idle clock are not modelled.
- Shell quoting of the `printf` argument (library code), and its failure on a NUL character.
- JSON, YAML and RFC 3339 parsing, SHA-256: parameters. Time is an integer.
- Directory creation and ownership checks in the guest and the secure cache root and lock file on
  the host are one step that may fail; other users changing guest files between a check and the
  rename are not modelled. A digest is taken to belong to one artifact size.
- Modification times of guest files are integers; unparsable lines of the listing are not modelled.
- The failure channel's closing: the handle that the supervisor holds owns the sender.
- Bring-up of a sandbox, memory reconcile, and what the sync task does.
- SandboxSupervisor.Supervisor.RunSupervisor: runs a finite sequence of turns of any length, because the loop has no end of its own.
- ProviderReconcile.SandboxHandle.ReconcileWithRetries: the bindings are the same for all attempts of one reload, because the provider lock is held throughout.
- Finer interleavings inside one timer function; `SplitDropLosesTimer` shows what they could do.
- The curator's configuration is fixed over a trace. A pass abandoned after the gate may already have
  applied its transitions without a stamp (`crates/bot/src/learning_curator.rs:600-640`); they are
  not modelled.
- A `test -f` in the guest that ends non-zero for another reason than a missing file would make the
  activation remove a verified target; a command that answers is taken to answer truthfully.
- The wording of failures, the trigger evidence, usage records and the file snapshots of a pass.
- Cron one-shot firing and the lock file of an execution: check and write are separated, so neither
  is promised. A manual trigger may be lost (failed clear, fresh lock, or a later trigger erased by
  the unconditional clear); the claim is at most once.
- A NaN budget in a cron spec, which would never equal itself.
- CronReconciler.Reconciler.Ticks: any finite number of ticks, because the loop has no end of its own.
- `diff_classify` on files that do not parse beyond the restart they cause; ignored legacy fields
  have no effect to model.
