# mono-agent: verified models

A Dafny 4.11 project beside the mono-agent sources. Each module follows one protocol or one
transformation of the repository; the members named in the table below state what it promises.
`dafny verify dfyconfig.toml` checks the project.

How the models are built:

- Asynchronous code is a state machine. The code between two awaits is one step, a step that is
  not enabled changes nothing, and a run is any list of steps; theorems are about all runs. What
  the surroundings decide (eligibility, outcomes of work, clocks, I/O failures, crashes, aborts) is
  a parameter of the step and may differ every time.
- Code that updates an object is also a class with the source's variables. Each method is tied to
  the function the state machine uses, so the theorems speak about the object's behaviour.
- Loops are loops, with the function they compute as their contract.
- What such a function must be is said by theorems that do not name it: what holds in every run,
  exactly when a step succeeds and what it leaves, and that what is due can be done. Limits and names
  that the outside sees are written out in them.

What is modelled:

- **Slack durable inbox and workers** (`SlackInboxState`, `SlackInboxLaws`, `SlackInboxQueue`,
  `SlackInbox`, `SlackChannel`, `SlackChannelSafety`, `SlackChannelTheorems`, `SlackChannelQueue`,
  `SlackChannelWork`, `SlackChannelProgress`, `SlackChannelEndings`): the persisted queue with its two
  lanes and 4 096-entry deduplication window, a log of what has become durable and of how work ended, the serialized commit with its three endings, both
  workers, the socket, shutdown, operator release, crash and reopen. A commit is three steps, so a
  crash may find the old or the new file. One process serves an inbox at a time; the inbox lease
  that ensures this is assumed. A booted process may serve a blocked inbox here, although `start`
  refuses to (packages/channel-slack/src/channel.ts:632): the theorems hold for that too.
- **Telegram updates** (`TelegramLedger`, `TelegramPolling`, `TelegramPromises`, `TelegramDue`): the window of
  tracked updates, two lanes, deferral as going back to the queue, and the offset that doubles as the
  server's acknowledgement. The server issues ascending, non-negative ids and answers any prefix, of
  at most 100, of what it has at or above the requested offset. Which updates the control lane takes
  is an arbitrary set at every decision.
- **Current-run lease** (`CurrentRunLease`, `CurrentRunLeaseLaws`, `CurrentRunLeaseScripts`,
  `CurrentRunLeasePromises`, `CurrentRunLeaseLife`): any number of processes open, recover, use, close and die on one root.
  An inode is locked by at most one process, its lock is freed when the process dies, and its link
  count is one exactly while the path names it. A creation that fails, by an abort or an I/O error,
  compares the path with the file it made and then unlinks the path, whoever holds the lease by
  then; the comparison and the unlink are two steps, as they are where a closing holder takes the
  lease away. A run is registered, then validated against the lease, then made in the root. Release
  begins at the unlink; `ReleaseIsTheUnlink` shows that it cannot be counted from the unlock.
- **Current-run tree** (`CurrentRunTree`, `CurrentRunShape`, `CurrentRunLayout`, `CurrentRunRecovery`,
  `CurrentRunCleanup`, `CurrentRunSweep`, `CurrentRunInvariant`, `CurrentRunClaims`,
  `CurrentRunRestores`, `CurrentRunLinks`, `CurrentRunLaws`, `CurrentRunClosure`, `CurrentRunCrash`,
  `CurrentRunRemoval`): directories and link counts as a map of paths, the layout that recovery
  accepts with every name written out, the recovery scan, claim-by-rename deletion, interleaved creation and cleanup of any
  number of runs, an orderly cleanup, and recovery. In the interleaved model cleanup takes a run's
  entries in any order and agents write and remove files at any time, which covers the source's order.
- **Conversation tails** (`ConversationTails`): the promise chain that runs operations of one
  conversation one at a time, with cancellation and collection of tails.
- **Webhook idempotency** (`WebhookIdempotency`, `WebhookDuplicates`, `WebhookRetries`): the map of idempotent
  requests under concurrent duplicates, cancellation, retries, pruning and eviction. An execution is
  unfinished until its completion settles; work that a submission goes on with after its abort is
  outside the promise, as it is in the source. Body fingerprints are injective.
- **Markdown excerpts** (`MarkdownFences`, `MarkdownReaders`, `MarkdownExcerpts`,
  `MarkdownDocuments`, `MarkdownMeaning`, `MarkdownCuts`, `MarkdownFailures`): parsing fences, choosing
  delimiters, balancing excerpts of ranges that begin and end anywhere, and two readers that say what a line is: the repository's own parser, and
  section 4.5 of the CommonMark Spec for fences outside containers and HTML blocks (its sections 5
  and 4.6), in texts whose carriage returns stand before line feeds. Documents are sequences of code
  points.
- **Document windows** (`DocumentWindows`, `DocumentFocus`): placing and trimming windows, with the length of what a
  window shows an arbitrary function of its range, and following next and previous targets.
- **OpenAI-compatible replies** (`OpenAiReply`, `OpenAiContent`): streamed and buffered replies to the same events,
  tool details and the byte budget. Sizes of texts, frames and messages are arbitrary functions.
  Reply events are emitted one after the other.
- **Bounded snapshots** (`BoundedValue`, `BoundedCopy`, `BoundedWeight`, `BoundedSuccess`): copying object graphs
  within byte, item and depth limits.
- **Text fitting and codecs** (`Unicode`, `Base64Url`, `FrameFitting`, `OperatorMessageIds`,
  `TelegramReplyCodec`, `CodecFormats`): JSON string sizes, the longest fitting prefix, base64url, message ids and
  reply callbacks, on UTF-16 texts that may hold lone surrogates.

Four promises turned out to need a condition, and each has its exact one:

- One process at a time has the root, and recovery meets no live run, except after a creation of the
  lease has failed and unlinked a lease that another process held. A holder loses the path in a run
  exactly when that happens in it (`HolderLosesPathExactly`); without it there is one holder
  (`MutualExclusion`, `RecoveryExcludesRuns`); and wherever it can happen, two holders and a recovery
  beside a live run can follow (`ExclusionFailsExactly`, `RecoveryMeetsRunHappens`). Always, at most
  one holder is at the path, and one that has lost it validates no further run
  (`OneHolderAtThePath`, `StaleGetsNothing`).
- Recovery accepts what an interrupted cleanup leaves except while a file is being put back: between
  the `link` and the `unlink` of `restoreClaim` the file has two links and the scan refuses it, and
  it goes on refusing it when that `unlink` fails (`CrashClosed`, `PuttingBackHappens`,
  `SecondLinkStays`). Interrupted recovery is accepted again only outside claims
  (`InterruptedByClaim`, `InterruptedByRename`).
- An excerpt of any range reads like its document, as the repository reads fences, exactly when no
  tilde delimiter is put before an info string that begins with a tilde, no piece of a cut line that
  stands outside fences looks like a fence, and the range does not begin within a delimiter and go on
  to a whole line (`AnyExcerptReadsLikeSource`; each can fail: `MergingExcerpt`,
  `PieceLooksLikeFence`, `CutOpeningHidesCode`). All line-aligned excerpts of a document read like
  the document exactly when three things hold (`DocumentKeepsMeaningExactly`). The reader and the
  repository read each line alike where it stands; no tilde delimiter is put before an info string
  that begins with a tilde; and no line shown as code ends the delimiter chosen for it. As the
  repository reads fences, the first and the third always hold (`FittingDocumentKeepsMeaning`). Under
  section 4.5 of the CommonMark Spec they hold when every line is agreeable: it is a fence to both
  readers or to neither, and what `trim` takes for a blank rest is of spaces and tabs. Lines that are
  not agreeable have a backtick in the info string after backticks, an indent that is not of spaces,
  a carriage return or another line terminator after the marker, or other white space after a closing
  marker; where such a line stands it may still be read alike (`BacktickInfoInsideFence`). Each of
  the three can fail (`BacktickInfoBecomesCode`, `AfterBacktickInfo`, `CarriageReturnHidesFence`;
  `MergingExcerpt`; `CarriageReturnEndsFence`).
- A reply label comes back from its callback data exactly when it has no lone surrogate, and labels
  share data exactly when they differ in nothing but lone surrogates (`LabelRoundTrip`,
  `LabelsDiffer`, `LoneSurrogateIsReplaced`, `LoneSurrogatesCollide`).

## Model

| member | source | states |
|---|---|---|
| SlackInboxLaws.TransitionKeepsValid | packages/channel-slack/src/inbox.ts:258-399 | every transition that writes takes a valid inbox to a valid one: bounds, matching ids, no id twice among entries and receipts, at most one entry in flight per lane; the structural checks cannot fire on a commit |
| SlackInboxLaws.TransitionEffect | packages/channel-slack/src/inbox.ts:258-399 | what each of the six calls does to the sets of pending, processing and failed envelopes, to the receipts and to its reply, and that a blocked or failed inbox neither admits nor claims; order and contents are in `TransitionQueue` |
| SlackInboxLaws.IdleClaimTakesOldest | packages/channel-slack/src/inbox.ts:449-459 | with nothing in flight in a non-empty unblocked inbox exactly one of the two lanes can claim, and it claims entry 0, the oldest of the queue (`FileIsInAdmissionOrder`) |
| SlackInboxLaws.OvertakeOnlyOnControl | packages/channel-slack/src/inbox.ts:439-468 | a claim passes over an older entry only on the control lane while a primary is in flight, and that entry is the primary or is not control-eligible |
| SlackInboxQueue.TransitionQueue | packages/channel-slack/src/inbox.ts:258-399 | what each writing call leaves of the queue of envelopes, with their contents: admission appends exactly the event it was given, completion takes its envelope out, and release, requeue, claim and failure leave envelopes and order alone |
| SlackInboxQueue.EnqueueExactly | packages/channel-slack/src/inbox.ts:258-283 | an event is admitted exactly when its id is well formed and new to entries and receipts, nothing has failed, the inbox is not blocked and it holds fewer than 256 envelopes; each refusal and the duplicate reply have their exact condition |
| SlackInboxQueue.ClaimExactly | packages/channel-slack/src/inbox.ts:434-469 | a lane claims exactly when nothing has failed, the inbox is not blocked, the lane is free and an entry is next for it; it claims that entry, answers its event and changes nothing else |
| SlackInboxQueue.SettleExactly | packages/channel-slack/src/inbox.ts:303-399 | release, completion and failure write exactly for an envelope in flight, are repeated quietly exactly as stated, and are otherwise refused as corrupt |
| SlackInbox.MutatedFailsClosed | packages/channel-slack/src/inbox.ts:471-517 | after any call file and memory are valid and equal unless the inbox is poisoned; a poisoned inbox never changes again and answers only errors; memory changes only with a successful reply |
| SlackInbox.AllNew | packages/channel-slack/src/inbox.ts:863-890 | the `seen` loop accepts exactly the lists without repetition |
| SlackInbox.CountLanes | packages/channel-slack/src/inbox.ts:891-899 | the counts of processing entries are admissible exactly when any two entries in flight have different, named lanes |
| SlackInbox.ValidateState | packages/channel-slack/src/inbox.ts:854-903 | the check accepts exactly the valid states |
| SlackInbox.SlackInbox.constructor | packages/channel-slack/src/inbox.ts:118-131 | a fresh inbox has what was loaded as memory and file, and is blocked when that holds processing or failed work |
| SlackInbox.SlackInbox.Mutate | packages/channel-slack/src/inbox.ts:471-517 | one serialized call on the object is the specified commit, for every way the replacement of the file can end, and keeps the object consistent |
| SlackInbox.SlackInbox.Close | packages/channel-slack/src/inbox.ts:424-432 | closing only forbids later calls |
| SlackInbox.Open | packages/channel-slack/src/inbox.ts:249-256 | a file is opened exactly when it is valid, and opens as it is |
| SlackChannelTheorems.BlockedClaimsNothing | packages/channel-slack/src/inbox.ts:1002-1015 | an inbox opened over processing or failed work commits no claim until the process ends, whatever happens |
| SlackChannelTheorems.DedupWindowExact | packages/channel-slack/src/inbox.ts:352-377 | in every run the receipts are exactly the last 4 096 completions, and two completions of one envelope are more than 4 096 completions apart |
| SlackChannelQueue.FileIsTheQueue | packages/channel-slack/src/inbox.ts:258-399 | in every run the file holds exactly the envelopes that were in it at first or were durably enqueued since, less those completed, with their contents and in that order |
| SlackChannelQueue.FileIsInAdmissionOrder | packages/channel-slack/src/inbox.ts:258-283 | in every run the entries stand in the order of their admission, and the event of each is the one last admitted under its id |
| SlackChannelQueue.ClaimsAnswerTheQueue | packages/channel-slack/src/inbox.ts:434-469 | every durable claim answered an envelope of the queue as it was enqueued; on the primary lane the oldest |
| SlackChannelQueue.NoEnvelopeLost | packages/channel-slack/src/inbox.ts:258-399 | an envelope durably enqueued is in the file as it was enqueued or has been completed since |
| SlackChannelProgress.EnvelopeIsAdmitted | packages/channel-slack/src/inbox.ts:258-283 | in a serving channel an event with a new id is appended to the file as it is and acknowledged |
| SlackChannelEndings.OperatorPutsBack | packages/channel-slack/src/inbox.ts:303-319 | what a crash left in flight the operator can put back: opened for maintenance, the file gets the envelope back in its place, waiting, and nothing else changes |
| SlackChannelTheorems.StepsAreMutate | packages/channel-slack/src/inbox.ts:482-515 | submitting, replacing the file and finishing, as separate steps, is one `mutate` call of the object, whichever of its three endings the replacement has |
| SlackChannelTheorems.NoAcknowledgedLoss | packages/channel-slack/src/socket.ts:162-177 | in every run, with failed and uncertain commits and crashes, an acknowledged envelope is in the file's entries or has been completed (its contents: `NoEnvelopeLost`) |
| SlackChannelQueue.AcknowledgedWasAdmitted | packages/channel-slack/src/socket.ts:162-177 | what the socket was answered for was in the first file or has been durably enqueued |
| SlackChannelTheorems.NoSilentRerun | packages/channel-slack/src/channel.ts:139-215 | in every run two durable claims of one envelope have between them a release or shutdown requeue naming it or its completion, and after a completion at least 4 096 further completions |
| SlackChannelTheorems.ShutdownRequeuesOwnAborts | packages/channel-slack/src/channel.ts:405-474 | a shutdown requeues at most two envelopes, each of whose worker ended in the owned abort after its last claim |
| SlackChannelTheorems.GracefulShutdownUnblocks | packages/channel-slack/src/channel.ts:464-475 | the requeue of a safe shutdown is never refused and leaves nothing in flight in the file; failed entries stay |
| SlackChannelWork.SettledAsWorked | packages/channel-slack/src/channel.ts:153-200 | in every run an envelope is completed only after its work ended consumed, and released by a worker only after the control lane declined it, each time since its last claim |
| SlackChannelProgress.OldestIsServed | packages/channel-slack/src/channel.ts:139-215 | in a serving channel at rest the oldest envelope can be served: the lane it is for claims it, and when its work ends consumed it leaves the file with a receipt; when the control lane declines it the file is as before |
| SlackChannelProgress.BootServes | packages/channel-slack/src/channel.ts:595-640 | a process booted on a file without failed or unfinished work serves it |
| SlackChannelEndings.FailedWorkIsMarked | packages/channel-slack/src/channel.ts:127-137 | work that fails or cannot be settled is marked failed in the file, nothing else changes there, and the channel neither runs nor will put anything back |
| SlackChannelEndings.TroubleForbidsRequeue | packages/channel-slack/src/channel.ts:464-475 | after failed work, a failed transport or a refused or uncertain inbox call the process requeues nothing for as long as it lives, unless the requeue is already being written |
| SlackChannelEndings.ShutdownPutsBack | packages/channel-slack/src/channel.ts:405-475 | a shutdown of a channel in which nothing went wrong puts the envelopes it interrupts back: they wait in their old places with their events, and nothing else in the file changes |
| SlackChannelEndings.StoppedForLife | packages/channel-slack/src/channel.ts:116-126 | a channel that no longer runs never runs again in its process: a lane that rests takes no envelope any more |
| SlackChannelEndings.TransportStops | packages/channel-slack/src/channel.ts:281-284 | a transport that fails stops the channel |
| SlackChannelEndings.AbortedIsRefused | packages/channel-slack/src/channel.ts:264-279 | after a failure the socket's events and the workers' claims and settlements never reach the inbox |
| SlackChannelSafety.OwnCallWrites | packages/channel-slack/src/channel.ts:153-200 | a worker that settles its own claim is never refused and never answered without a write |
| SlackChannelSafety.StepKeepsInv | packages/channel-slack/src/channel.ts:139-215 | each step of workers, socket, operator, shutdown, commit, crash and reopen keeps the channel's invariant over file, memory, commit in flight, worker phases and history |
| TelegramLedger.Channel.constructor | packages/channel-telegram/src/index.ts:557-560 | an empty ledger at offset 0 |
| TelegramLedger.Channel.AdvanceConsumedFrontier | packages/channel-telegram/src/index.ts:557-584 | the loop drops exactly the settled prefix and moves the offset to the first unsettled id, or past the last settled one, never back; it reports whether the offset moved |
| TelegramLedger.Channel.HasEarlierControlBarrier | packages/channel-telegram/src/index.ts:468-475 | true exactly when an earlier update runs on, or waits for, the control lane |
| TelegramLedger.Channel.FindQueued | packages/channel-telegram/src/index.ts:480-483 | the first received update that is queued for the lane |
| TelegramLedger.Channel.StartTrackedUpdate | packages/channel-telegram/src/index.ts:498-511 | the update enters the lane |
| TelegramLedger.Channel.ScheduleUpdates | packages/channel-telegram/src/index.ts:477-496 | both lanes are refilled as specified, and exactly what that is says `ScheduleExactly`; the offset stays |
| TelegramLedger.Channel.FinishUpdate | packages/channel-telegram/src/index.ts:537-553 | the update leaves its lane settled or queued, the frontier advances, the lanes are refilled |
| TelegramLedger.Channel.NewUpdates | packages/channel-telegram/src/index.ts:590-599 | of a batch, the ids that are not consumed, not tracked and first in the batch |
| TelegramLedger.Channel.Track | packages/channel-telegram/src/index.ts:616-624 | new ids are queued and the received ids stay sorted |
| TelegramLedger.Channel.IngestUpdates | packages/channel-telegram/src/index.ts:586-628 | a batch is taken as a whole or refused as saturated, with the counts reported; then the frontier advances and the lanes are refilled |
| TelegramDue.ScheduleExactly | packages/channel-telegram/src/index.ts:477-496 | what scheduling does, without its functions: halted, nothing; otherwise a free primary lane that is not stopped takes exactly the update that is due, the smallest waiting one if no smaller update runs on or waits for the control lane, and a free control lane the smallest that waits for it; nothing else changes |
| TelegramDue.ControlNeverIdles | packages/channel-telegram/src/index.ts:489-494 | after any scheduling that is not halted the control lane is in use or no control update waits |
| TelegramDue.StartsAreRecorded | packages/channel-telegram/src/index.ts:498-511 | the history that the theorems speak of records exactly the lanes' new updates as started |
| TelegramDue.RefusedExactly | packages/channel-telegram/src/index.ts:600-615 | a batch is refused exactly when the window of 100 cannot hold its new ids or a full batch only repeats a full window; then nothing changes |
| TelegramDue.TakenExactly | packages/channel-telegram/src/index.ts:586-628 | a batch that is taken adds each new id, waiting, and nothing else, and consumes exactly the settled ids below the frontier |
| TelegramDue.NextUpdateIsProcessed | packages/channel-telegram/src/index.ts:660-703 | with nothing tracked and no poll under way the oldest update the server holds is fetched, runs, settles and is acknowledged by the next poll |
| TelegramDue.PollingGoesOn | packages/channel-telegram/src/index.ts:660-703 | a poll ends with its answer or failure and the next one asks from the frontier; the answer to an interrupted poll changes nothing else |
| TelegramPolling.AdvanceSplits | packages/channel-telegram/src/index.ts:557-584 | advancing consumes a tracked update exactly if it lies below the new frontier, and only settled ones |
| TelegramPolling.AdvanceMakesValid | packages/channel-telegram/src/index.ts:557-584 | after advancing the offset is the oldest tracked update, which has not settled |
| TelegramPolling.OlderHaveSettled | packages/channel-telegram/src/index.ts:477-488 | when a primary is chosen every smaller tracked update has settled |
| TelegramPolling.PrimaryStartsAtFrontier | packages/channel-telegram/src/index.ts:477-488 | a primary that starts is the offset itself |
| TelegramPolling.ScheduleKeepsValid | packages/channel-telegram/src/index.ts:477-496 | scheduling keeps the ledger valid: one update per lane, both lanes agreeing with the tracked states |
| TelegramPolling.ResponseHasNoGap | packages/channel-telegram/src/index.ts:680-684 | what the server issued between the offset and an answered id is answered too |
| TelegramPolling.StepKeepsInv | packages/channel-telegram/src/index.ts:660-703 | each step of server, poll, interruption, completion and confirmation keeps the invariant of ledger, stream, polls and history |
| TelegramPromises.FrontierSafety | packages/channel-telegram/src/index.ts:660-703 | every offset ever sent is at most every issued update that has not settled, so the server forgets nothing unprocessed |
| TelegramPromises.PrimaryIsFrontier | packages/channel-telegram/src/index.ts:477-506 | in every run, whenever a primary starts its id is the offset and no older update is still tracked |
| TelegramPromises.StartsInOrder | packages/channel-telegram/src/index.ts:498-555 | primary starts never go backwards, and a settled update is never started again on either lane |
| TelegramPromises.WindowBounded | packages/channel-telegram/src/index.ts:586-628 | at most 100 tracked updates, one per lane, and the offset is the oldest of them, not settled |
| TelegramPromises.AnswerNeverOverflows | packages/channel-telegram/src/index.ts:600-615 | against the server an answer never overflows the ledger; it is refused only when the window is full and the answer repeats it |
| CurrentRunLease.OpenWorkspace.constructor | packages/core/src/current-run-workspace.ts:62-64 | an open workspace without runs |
| CurrentRunLease.OpenWorkspace.CreateRun | packages/core/src/current-run-workspace.ts:71-76 | a run is registered unless the workspace is closing |
| CurrentRunLease.OpenWorkspace.CleanupRun | packages/core/src/current-run-workspace.ts:65-86 | the end of the last run releases a workspace that is closing, and nothing else does |
| CurrentRunLease.OpenWorkspace.Close | packages/core/src/current-run-workspace.ts:88-96 | closing releases at once exactly when there is no run |
| CurrentRunLeaseLaws.NextKeepsInv | packages/core/src/current-run-workspace.ts:36-193 | each step of opening, creating and failing to create, validating, recovering, running, closing, unlinking and dying keeps the lease invariant |
| CurrentRunLeasePromises.OneHolderAtThePath | packages/core/src/current-run-workspace.ts:209-221 | in every run of any number of processes any two that hold the lease hold different inodes, so that at most one of them is at the path |
| CurrentRunLeasePromises.MutualExclusion | packages/core/src/current-run-workspace.ts:100-180 | in every run in which no creation fails and unlinks the lease another process holds, no two processes are past validated acquisition and before release |
| CurrentRunLeasePromises.RecoveryExcludesRuns | packages/core/src/current-run-workspace.ts:43-48 | in every such run no process has an active run while another recovers the root |
| CurrentRunLeasePromises.ExclusionFailsExactly | packages/core/src/current-run-workspace.ts:117-124 | the condition is exact: from any world of any run in which every holder is at the path, two holders can come about if and only if a creation can fail and unlink a held lease, and so can a recovery beside a live run |
| CurrentRunLeasePromises.NewcomerJoins | packages/core/src/current-run-workspace.ts:112-124 | when a creation fails beside a holder of an empty root, the next newcomer creates the lease anew and recovers while the old holder goes on |
| CurrentRunLeasePromises.RecoveryMeetsRunHappens | packages/core/src/current-run-workspace.ts:71-76 | a concrete run from the empty root of four processes in which a creation fails, after which one process recovers the root while another, validated before, has its run there |
| CurrentRunLeasePromises.PathIsTakenBy | packages/core/src/current-run-workspace.ts:181-193 | the lease path is taken away only by a creation that fails or by the closing holder without runs; unless a creation failed beside a holder the latter takes its own inode, from a root that holds nothing else |
| CurrentRunLeasePromises.StaleGetsNothing | packages/core/src/current-run-workspace.ts:209-221 | an inode that has lost the path never regains it: whoever has it in hand, opening, creating, recovering or closing, passes none of the checks still ahead, nobody comes to hold the lease through it, and of a holder no run is let in |
| CurrentRunLeasePromises.OrphanedExactly | packages/core/src/current-run-workspace.ts:112-116 | unless a creation fails beside a holder, a root is ever without a lease and not empty if and only if a creation fails and unlinks the lease of a root that is not empty |
| CurrentRunLeasePromises.OrphanedRootIsRefused | packages/core/src/current-run-workspace.ts:112-116 | such a root refuses every newcomer with the residue error and nothing changes |
| CurrentRunLeaseLife.OpensExactly | packages/core/src/current-run-workspace.ts:100-162 | in any reachable world an undisturbed opening of a root with a lease acquires it, and changes nothing else, exactly if the file is complete and nobody has locked it; otherwise all is as before |
| CurrentRunLeaseLife.EmptyRootIsTaken | packages/core/src/current-run-workspace.ts:112-162 | an undisturbed opening of an empty root makes a new lease, complete and locked, and holds it |
| CurrentRunLeaseLife.SecondCreatorFinds | packages/core/src/current-run-workspace.ts:118-124 | of two that find no lease the second to create it goes on with the first one's, or fails like any newcomer if that is incomplete |
| CurrentRunLeaseLife.RecoversExactly | packages/core/src/current-run-workspace.ts:43-48 | a new holder is ready after recovery if its lease is still at the path, and otherwise leaves and frees its lock |
| CurrentRunLeaseLife.RunIsMadeExactly | packages/core/src/current-run-workspace.ts:71-76 | a new run of a ready holder is made if the lease is at the path, and otherwise leaves nothing |
| CurrentRunLeaseLife.RunEndsExactly | packages/core/src/current-run-workspace.ts:77-86 | a run that ends is no longer active, and the root is empty again exactly if it left nothing and was the last one made, or was empty before |
| CurrentRunLeaseLife.ClosingAdmitsNothing | packages/core/src/current-run-workspace.ts:71-72 | once a workspace closes no run starts: its active runs only become fewer until it leaves |
| CurrentRunLeaseLife.ClosesExactly | packages/core/src/current-run-workspace.ts:163-192 | a holder without runs that closes leaves and frees its lock, and the lease goes exactly if it is its own and the root holds nothing else |
| CurrentRunLeaseLife.LifeLeavesNothing | packages/core/src/current-run-workspace.ts:36-193 | in any reachable world with an empty root a whole life, from opening over a run to closing, leaves the world as it was but for one used inode |
| CurrentRunLeasePromises.ReleaseIsTheUnlink | packages/core/src/current-run-workspace.ts:163-192 | once the old holder has unlinked, a newcomer acquires the lease while the old inode is still locked |
| CurrentRunLeasePromises.HolderLosesPathExactly | packages/module-sdk/src/secure-fs.ts:356-365 | in a run some process goes on holding a lease whose path it has lost if and only if a creation fails in it and unlinks the path while another process holds what it names |
| CurrentRunLeaseLife.FailedCreationIsUndone | packages/module-sdk/src/secure-fs.ts:186-192 | an undisturbed creation that fails, before or after the contents are written, takes its file away again |
| CurrentRunLeasePromises.FailingCreationTears | packages/module-sdk/src/secure-fs.ts:186-192 | it happens: a creation aborted after the directory was synchronized is about to unlink the lease that another process has opened, validated and holds |
| CurrentRunTree.NamesAreDisjoint | packages/core/src/current-run-output.ts:252-258 | cleanup names, run names, payload names, `entry` and the lease name do not overlap where the scan has to tell them apart |
| CurrentRunTree.DepthBounded | packages/core/src/current-run-output.ts:140-145 | the place of an entry bounds its depth by 6, so the depth limit of 8 is never met |
| CurrentRunTree.MoveContents | packages/core/src/current-run-output.ts:375 | what a rename leaves at every path |
| CurrentRunTree.DeleteThroughRemoves | packages/core/src/current-run-output.ts:361-407 | making a claim, renaming into it, deleting there and deleting the claim removes exactly the entry |
| CurrentRunLayout.CleanupNames | packages/core/src/current-run-output.ts:252-255 | a cleanup name is `.cleanup-` and a version 4 UUID in lower case |
| CurrentRunLayout.RunNames | packages/core/src/current-run-output.ts:256-258 | a run name has 1 to 128 letters, digits and `._-`, the first a letter or digit |
| CurrentRunLayout.ShapeIsLayout | packages/core/src/current-run-output.ts:140-224 | what the scan takes for well shaped is exactly the layout written out by full paths and literal names: the lease, runs, `attachments` and `outbound`, files in them, and at each level claims that hold at most the `entry` of that level |
| CurrentRunLayout.AcceptsExactly | packages/core/src/current-run-output.ts:140-224 | recovery accepts exactly the trees in that layout whose files have one link, with at most 4 096 entries in the root and 65 536 altogether |
| CurrentRunLayout.UnknownIsRefused | packages/core/src/current-run-output.ts:165-190 | one entry outside the layout, at whatever level, and the whole root is refused |
| CurrentRunRecovery.ScanDirectory | packages/core/src/current-run-output.ts:140-196 | the scan of a directory, entries in any order, succeeds only if everything below is in its place with one link and counted, listing it parents first; it fails only on trees that are not acceptable |
| CurrentRunRecovery.ScanEntry | packages/core/src/current-run-output.ts:154-195 | the same for one entry: lease, claim, run, payload directory or file, which are exactly the places of `ShapeIsLayout` |
| CurrentRunRecovery.ScanClaim | packages/core/src/current-run-output.ts:197-224 | the same for a cleanup claim, empty or with its one entry |
| CurrentRunRecovery.ScanClaimed | packages/core/src/current-run-output.ts:205-224 | a claim's content is the one entry it was made for, or the tree is refused |
| CurrentRunRecovery.ScanFile | packages/core/src/current-run-output.ts:246-251 | a plain file with one link becomes a node, anything else refutes the tree |
| CurrentRunRecovery.ScanSubdirectory | packages/core/src/current-run-output.ts:238-245 | a directory becomes a node before what it holds |
| CurrentRunRecovery.ScanLease | packages/core/src/current-run-output.ts:161-164 | the lease is checked and kept out of what will be deleted |
| CurrentRunRecovery.NodeIsLast | packages/core/src/current-run-output.ts:129-133 | deleting the inventory from its end, every node is there, of its kind and empty when its turn comes |
| CurrentRunRecovery.RunRoot.constructor | packages/core/src/current-run-output.ts:115-121 | a root over any tree |
| CurrentRunRecovery.RunRoot.ClaimAndDelete | packages/core/src/current-run-output.ts:361-407 | deletes an entry of the expected kind that is empty or a single-link file, counts a missing one as deleted, and otherwise leaves the tree as it was |
| CurrentRunRecovery.RunRoot.Recover | packages/core/src/current-run-output.ts:115-139 | recovery succeeds exactly on acceptable trees with a lease and leaves exactly root and lease; a tree that is not acceptable, in particular one with any entry outside the layout written out in `CurrentRunLayout`, is left untouched |
| CurrentRunShape.MovedAlong | packages/core/src/current-run-output.ts:375-381 | what is renamed into or out of a claim keeps the place the scan gives it, with everything below it |
| CurrentRunShape.MoveKeeps | packages/core/src/current-run-output.ts:375-381 | a fitting rename keeps tree and shape |
| CurrentRunClaims.CreateKeepsInv | packages/core/src/current-run-output.ts:84-93 | creating the run, its directories and files, at any time, keeps the invariant |
| CurrentRunClaims.DropKeepsInv | packages/core/src/current-run-output.ts:361-375 | an agent that removes a file of its own, also one that is being cleaned up, keeps it |
| CurrentRunClaims.MakeClaimKeepsInv | packages/core/src/current-run-output.ts:369-371 | making a claim keeps it |
| CurrentRunClaims.RenameKeepsInv | packages/core/src/current-run-output.ts:375 | renaming into the claim keeps it, also when an agent has filled the directory meanwhile; what has gone meanwhile leaves the claim empty |
| CurrentRunClaims.DeleteKeepsInv | packages/core/src/current-run-output.ts:380-382 | deleting the claimed entry keeps it |
| CurrentRunLaws.RestoreKeepsInv | packages/core/src/current-run-output.ts:408-426 | putting an entry back keeps it in all four cases |
| CurrentRunRestores.FailedRestoreKeepsInv | packages/core/src/current-run-output.ts:417 | a second link that cannot be removed keeps it, with cleanup going on |
| CurrentRunClaims.RemoveClaimKeepsInv | packages/core/src/current-run-output.ts:399-405 | removing the claim keeps it, and so does leaving it because it is not empty or cannot be removed |
| CurrentRunLaws.NextKeepsInv | packages/core/src/current-run-output.ts:74-108 | each step of any number of interleaved runs keeps the invariant |
| CurrentRunSweep.MakesRunExactly | packages/core/src/current-run-output.ts:84-86 | creating a run adds its directory, `attachments` and `outbound`, and nothing else |
| CurrentRunSweep.FilesComeAndGo | packages/core/src/current-run-output.ts:361-375 | an agent writes a file once, overwriting nothing, and removes its own |
| CurrentRunSweep.SweepsExactly | packages/core/src/current-run-output.ts:361-407 | whatever other runs are doing, an entry of a run that can be deleted is deleted by the five steps of the detour, and nothing else changes |
| CurrentRunSweep.RefusedIsUndone | packages/core/src/current-run-output.ts:380-426 | a deletion that fails once the entry is in its claim puts it back, file or directory, and removes the claim: everything is as before |
| CurrentRunSweep.UnusedClaimGoes | packages/core/src/current-run-output.ts:369-405 | a deletion given up before the rename leaves all as it was, one whose file has gone meanwhile all but the file |
| CurrentRunSweep.TakenPlaceKeepsBoth | packages/core/src/current-run-output.ts:408-412 | when another file has taken the place, a failed deletion touches neither: the entry stays in its claim |
| CurrentRunClosure.CrashClosed | packages/core/src/current-run-output.ts:338-426 | wherever creation and cleanup stop, recovery accepts the root exactly when it is within the entry limits and no file has two links, neither one that is being put back nor one whose second link could not be removed |
| CurrentRunClosure.PuttingBackHappens | packages/core/src/current-run-output.ts:411-417 | the excluded window exists: seven concrete steps from a root that holds only its lease, with a deletion that fails after the rename, end in it, and the scan refuses the tree there |
| CurrentRunClosure.SecondLinkStays | packages/core/src/current-run-output.ts:408-426 | two further steps, in which the second link cannot be removed, end the cleanup with a tree that the scan refuses from then on |
| CurrentRunCrash.CrashThenRecover | packages/core/src/current-run-output.ts:115-139 | unless a file has two links, recovery after any crash leaves the lease and nothing else |
| CurrentRunCrash.InterruptedByClaim | packages/core/src/current-run-output.ts:205-209 | recovery itself stopped after making a claim leaves an accepted tree exactly when the node is not in a claim |
| CurrentRunCrash.InterruptedByRename | packages/core/src/current-run-output.ts:217-219 | recovery stopped after the rename leaves an accepted tree exactly when moreover the node is not the claim of a file |
| CurrentRunRemoval.Purge | packages/core/src/current-run-output.ts:347-360 | the output directory loses its plain files when it has at most 256 entries; success exactly when it had nothing else |
| CurrentRunRemoval.DeleteStaged | packages/core/src/current-run-output.ts:342-343 | the staged files that are there are deleted; success exactly when each is absent or a single-link file |
| CurrentRunRemoval.DeleteOwned | packages/core/src/current-run-output.ts:361-365 | one owned entry is deleted, or was gone, or stays |
| CurrentRunRemoval.CleanUp | packages/core/src/current-run-output.ts:338-346 | cleanup succeeds exactly on a run that holds only what belongs there, then nothing of it is left, and nothing outside it is ever touched |
| ConversationTails.Tails.constructor | packages/core/src/host-admission.ts:7-8 | no tails |
| ConversationTails.Tails.Enter | packages/core/src/host-admission.ts:15-22 | a call is chained behind the tail of its conversation and becomes the tail |
| ConversationTails.Tails.Collect | packages/core/src/host-admission.ts:28-30 | a settled call removes the tail only while it still is the tail |
| ConversationTails.NextKeepsInv | packages/core/src/host-admission.ts:10-32 | arriving, starting, aborting, finishing, settling and collecting keep the chain invariant |
| ConversationTails.MutualExclusion | packages/core/src/host-admission.ts:10-32 | in every interleaving operations of one conversation never overlap |
| ConversationTails.StartsInArrivalOrder | packages/core/src/host-admission.ts:15-25 | they start in arrival order, whichever waiting calls are aborted |
| ConversationTails.NothingIsOvertaken | packages/core/src/host-admission.ts:27-30 | a call starts only when all earlier calls of its conversation have ended, also across a deleted tail |
| ConversationTails.TailIsLastCall | packages/core/src/host-admission.ts:22-30 | the map names the last call of a conversation, or everything of it has settled |
| ConversationTails.TurnComes | packages/core/src/host-admission.ts:24-25 | a waiting call with nothing unfinished before it in its conversation runs as soon as the promises before it have settled, whatever goes on elsewhere |
| ConversationTails.EverythingCanRun | packages/core/src/host-admission.ts:10-32 | no call is ever stuck: from any reachable state every waiting operation can still run, in arrival order and without anybody giving up, and at the end no tail is left |
| ConversationTails.ArrivalAndAbort | packages/core/src/host-admission.ts:15-28 | an arrival adds a waiting call and nothing else, giving up ends a waiting call without a start, and no other call changes |
| ConversationTails.QuietMapIsEmpty | packages/core/src/host-admission.ts:26-31 | when all calls have ended and no promise step is left, the map is empty |
| WebhookIdempotency.IdempotentRequests.constructor | packages/channel-webhook/src/server.ts:229 | an empty map |
| WebhookIdempotency.IdempotentRequests.Prune | packages/channel-webhook/src/server.ts:1177-1185 | exactly the expired terminal entries go |
| WebhookIdempotency.IdempotentRequests.Reserve | packages/channel-webhook/src/server.ts:1187-1199 | nothing goes when there is room; otherwise terminal entries only, oldest first, no more than needed, and failure means that no terminal entry is left |
| WebhookIdempotency.IdempotentRequests.Oldest | packages/channel-webhook/src/server.ts:1192-1194 | an oldest of the terminal entries |
| WebhookDuplicates.BeginKeepsInv | packages/channel-webhook/src/server.ts:561-582 | starting and remembering an attempt in one synchronous stretch keeps the invariant |
| WebhookDuplicates.NextKeepsInv | packages/channel-webhook/src/server.ts:463-510 | each step of arrivals, waiters, settlements, outcomes learned late and pruning keeps the invariant |
| WebhookDuplicates.SingleLiveAttempt | packages/channel-webhook/src/server.ts:467-510 | one route and key never has two unfinished executions |
| WebhookDuplicates.RetriedByOne | packages/channel-webhook/src/server.ts:498-509 | of all waiters on a cancelled attempt at most one retries it, with the next number and the same body and conversation |
| WebhookRetries.CancelledIsRetried | packages/channel-webhook/src/server.ts:493-508 | a connected waiter on a cancelled attempt that the map still names, below 10 000 attempts and with room in the status store, begins exactly one execution: the next number, the same body and conversation, after that attempt |
| WebhookRetries.LaterDuplicateRetries | packages/channel-webhook/src/server.ts:482-508 | so does a later duplicate of a cancelled async attempt that the map remembers |
| WebhookRetries.FirstRequestRuns | packages/channel-webhook/src/server.ts:561-582 | a first request begins attempt 1 when the map has room or makes it by evicting entries that know their outcome |
| WebhookRetries.DuplicateWaits | packages/channel-webhook/src/server.ts:474-481 | a duplicate of a sync attempt waits for it and starts nothing |
| WebhookRetries.OvertakenWaitsAgain | packages/channel-webhook/src/server.ts:467-481 | a waiter that another has overtaken waits for the attempt it finds |
| WebhookRetries.AnsweredLeaves | packages/channel-webhook/src/server.ts:498-503 | a waiter whose attempt ended otherwise, or whose client has gone, leaves without a trace |
| WebhookRetries.OthersStartNothing | packages/channel-webhook/src/server.ts:470-505 | another body, an async attempt that was not cancelled, one at the limit or a client that has gone starts nothing |
| WebhookRetries.NoRoomStartsNothing | packages/channel-webhook/src/server.ts:1187-1199 | without room nothing starts, and every entry left is of an attempt whose outcome is unknown |
| WebhookRetries.SettlesOnce | packages/channel-webhook/src/server.ts:1143-1147 | an attempt settles once, with the outcome its submission came to, and nothing else changes |
| WebhookRetries.RoomIsRoom | packages/channel-webhook/src/server.ts:1187-1199 | a map with a free place has room without evicting anything |
| WebhookRetries.OutcomeIsRemembered | packages/channel-webhook/src/server.ts:1128-1148 | an entry learns the outcome of its attempt and the time, can expire only from then on, and goes with the first pruning whose cutoff has reached that time |
| WebhookDuplicates.BoundedAndRetained | packages/channel-webhook/src/server.ts:1187-1199 | the map never exceeds its capacity, and an unfinished execution keeps its entry |
| WebhookDuplicates.OnlyRetriesWhileRetained | packages/channel-webhook/src/server.ts:468-510 | while the map keeps an identity a new execution of it is the retry of the attempt it knows; attempt 1 needs that the identity is unknown or just expired |
| MarkdownFences.ParseFinds | extras/docs-mcp/src/markdown-helpers.js:189-195 | the parser finds a fence exactly for the lines the pattern matches, and the match is unique |
| MarkdownFences.SafeSyntheticFence | extras/docs-mcp/src/markdown-helpers.js:221-247 | the loop chooses the specified delimiter |
| MarkdownFences.BalanceLines | extras/docs-mcp/src/markdown-helpers.js:83-118 | the loop renders the specified lines, with the delimiters before and after |
| MarkdownReaders.ReadersAgree | extras/docs-mcp/src/markdown-helpers.js:189-207 | a line is read alike by the repository and under section 4.5 of the CommonMark Spec in every state exactly when it is agreeable: it is a fence to both or to neither, and a blank rest is of spaces and tabs |
| MarkdownExcerpts.ChosenIsSafe | extras/docs-mcp/src/markdown-helpers.js:229-246 | no bare run shown inside reaches the chosen delimiter, and before a backtick in the info string it is of tildes (section 4.5 of the CommonMark Spec) |
| MarkdownExcerpts.ChosenIsShortest | extras/docs-mcp/src/markdown-helpers.js:241-246 | no safe delimiter is shorter, and on a tie the source's character stays |
| MarkdownExcerpts.RenderedOpening | extras/docs-mcp/src/markdown-helpers.js:98-106 | a rendered opening line is read with the rendered marker unless that runs into the info string, by the repository and under section 4.5 of the CommonMark Spec |
| MarkdownExcerpts.ReadingsAgree | extras/docs-mcp/src/markdown-helpers.js:89-118 | from any line on from which a reader (the repository, or section 4.5 of the CommonMark Spec) and the repository read the slice alike, document and excerpt are read alike if and only if no delimiter merges and no line shown as code ends its fence |
| MarkdownExcerpts.ExcerptKeepsMeaning | extras/docs-mcp/src/markdown-helpers.js:75-120 | for every line-aligned slice that a reader reads like the repository, line by line where the lines stand: every line keeps its standing, only delimiters look different and the excerpt ends outside a fence, if and only if no opening line gets a tilde delimiter before an info string beginning with a tilde and no line shown as code ends the chosen delimiter |
| MarkdownExcerpts.FittingExcerptKeepsMeaning | extras/docs-mcp/src/markdown-helpers.js:75-120 | as the repository reads fences, and under section 4.5 of the CommonMark Spec for slices of agreeable lines, merging is all that can go wrong: the meaning is kept if and only if no delimiter merges |
| MarkdownExcerpts.NoTildeInfoIsMergeFree | extras/docs-mcp/src/markdown-helpers.js:93-107 | it is enough that no backtick fence has an info string beginning with a tilde |
| MarkdownDocuments.ActiveFence | extras/docs-mcp/src/markdown-helpers.js:167-183 | the loop computes the fence open after the complete lines before an offset |
| MarkdownDocuments.BalanceFences | extras/docs-mcp/src/markdown-helpers.js:75-120 | the text of an excerpt is the join of the balanced lines |
| MarkdownDocuments.ExcerptReadsLikeDocument | extras/docs-mcp/src/markdown-helpers.js:75-120 | for every line-aligned slice of every document that a reader reads like the repository: each line stands in the text of the excerpt as in the whole document and the text ends outside any fence, if and only if no delimiter merges and no line shown as code ends its fence |
| MarkdownDocuments.FittingDocumentKeepsMeaning | extras/docs-mcp/src/markdown-helpers.js:75-120 | for every document as the repository reads it, and for documents of agreeable lines under section 4.5 of the CommonMark Spec, the excerpt of a line-aligned slice reads like the document if and only if no delimiter merges |
| MarkdownDocuments.PlainDocumentsKeepMeaning | extras/docs-mcp/src/markdown-helpers.js:75-120 | the excerpt reads like the document when no backtick fence of the document has an info string beginning with a tilde: as the repository reads fences always, under section 4.5 of the CommonMark Spec when moreover every line of the document is agreeable |
| MarkdownCuts.AnyExcerptKeepsMeaning | extras/docs-mcp/src/markdown-helpers.js:75-120 | for any slice, also one that cuts lines at its ends, as the repository reads fences: every whole line keeps its standing, pieces of lines are shown as they are and open and close nothing, and the excerpt ends outside a fence, if and only if no delimiter merges and no piece outside fences looks like a fence |
| MarkdownCuts.AnyExcerptReadsLikeSource | extras/docs-mcp/src/markdown-helpers.js:75-183 | for every range of every document: the excerpt reads like the document if and only if moreover the range does not begin within a delimiter and go on to a whole line |
| MarkdownCuts.PieceLooksLikeFence | extras/docs-mcp/src/markdown-helpers.js:86-95 | a concrete range whose first line, cut after its first letter, is three tildes: the excerpt fences the next line, which the document does not |
| MarkdownCuts.CutOpeningHidesCode | extras/docs-mcp/src/markdown-helpers.js:167-183 | a concrete range that begins within an opening line: code is shown as prose |
| MarkdownMeaning.DisagreementShows | extras/docs-mcp/src/markdown-helpers.js:83-118 | one line that a reader and the repository read differently where it stands loses its standing when it is cut out on its own, or the excerpt ends inside a fence |
| MarkdownMeaning.DisagreementIsSeen | extras/docs-mcp/src/markdown-helpers.js:75-120 | in a document that they do not read alike some line-aligned excerpt does not read like the document |
| MarkdownMeaning.DocumentKeepsMeaningExactly | extras/docs-mcp/src/markdown-helpers.js:75-120 | for every document and either reader: all line-aligned excerpts read like the document if and only if reader and repository read each line alike where it stands, no excerpt merges a delimiter, and in none a line shown as code ends its fence |
| MarkdownFailures.MergingExcerpt | extras/docs-mcp/src/markdown-helpers.js:98-106 | the merging family is real for both readers: a slice of agreeable lines whose balanced excerpt changes the standing of a line |
| MarkdownFailures.BacktickInfoBecomesCode | extras/docs-mcp/src/markdown-helpers.js:98-106 | a line that is no agreeable one: three backticks and an info string with a backtick are prose under section 4.5, are shown with tildes, and turn the prose below into code |
| MarkdownFailures.AfterBacktickInfo | extras/docs-mcp/src/markdown-helpers.js:86-92 | prose below such a line, cut out on its own, is put into a fence |
| MarkdownFailures.CarriageReturnHidesFence | extras/docs-mcp/src/markdown-helpers.js:190 | with carriage returns at the ends of lines the repository sees no fence, and code cut out is shown as prose |
| MarkdownFailures.CarriageReturnEndsFence | extras/docs-mcp/src/markdown-helpers.js:221-247 | the third condition is needed: a slice both readers read alike and that merges nothing, whose chosen tildes a line of tildes and a carriage return ends under section 4.5 |
| MarkdownFailures.BacktickInfoInsideFence | extras/docs-mcp/src/markdown-helpers.js:196-207 | agreement where a line stands is less than agreeable lines: inside a tilde fence backticks before an info string with a backtick are code to both, and the meaning is kept |
| DocumentWindows.EndsAtABreak | extras/docs-mcp/src/reader.ts:384-390 | a preferred end follows a line feed unless the range has none or the document ends; a blank line in the last 400 units wins |
| DocumentWindows.StartsAtABreak | extras/docs-mcp/src/reader.ts:376-382 | a preferred start is the document's start, follows a line feed or is the focus |
| DocumentWindows.PlaceBounds | extras/docs-mcp/src/reader.ts:321-344 | every request is placed inside the document, and not empty unless the document is; where exactly say `PlacedExactly` and `CentrePlacedExactly` |
| DocumentFocus.PlacedExactly | extras/docs-mcp/src/reader.ts:324-344 | a forward request is placed from its offset to the last break within its content, a backward one from the break in front of its content to its offset; beyond the ends of the document its last or first content is shown |
| DocumentFocus.CentrePlacedExactly | extras/docs-mcp/src/reader.ts:331-344 | a centred request is laid a third of the spare content before its focus, from break to break; if that does not reach the focus's end, it ends within 1 000 units after the focus and reaches back from there |
| DocumentFocus.PlacedAroundFocus | extras/docs-mcp/src/reader.ts:331-340 | a centred request is placed around its focus: it begins at or before the focus and ends at or after it, with at most its content in length but for the breaks |
| DocumentFocus.RoundCuts | extras/docs-mcp/src/reader.ts:347-361 | a round of trimming cuts a forward window behind, a backward one in front and a centred one on the side with more context, at the first line feed beyond the excess or by exactly the excess |
| DocumentFocus.FocusIsShownExactly | extras/docs-mcp/src/reader.ts:331-373 | the window of a search hit shows the whole hit if and only if none of the up to four rounds cuts into it, and it does when nothing needs trimming |
| DocumentWindows.MarkdownWindow | extras/docs-mcp/src/reader.ts:319-374 | placing, at most four rounds of trimming and the error, as specified by the functions that the rows around this one pin |
| DocumentWindows.WindowIsSound | extras/docs-mcp/src/reader.ts:364-373 | a window is a non-empty range within the document, shows no more than its limit and reports truthfully what is cut |
| DocumentWindows.WindowFailsExactly | extras/docs-mcp/src/reader.ts:364-366 | the error is raised exactly when the document is empty or the trimmed window still shows too much |
| DocumentWindows.ForwardWindow | extras/docs-mcp/src/reader.ts:324-326 | a forward window begins at the requested offset, after all trimming |
| DocumentWindows.BackwardWindow | extras/docs-mcp/src/reader.ts:327-329 | a backward window ends at the requested offset, after all trimming |
| DocumentWindows.FollowingTiles | extras/docs-mcp/src/reader.ts:97-99 | next targets from any offset make progress, end, and read the rest of the document exactly once in order |
| DocumentWindows.PrecedingTiles | extras/docs-mcp/src/reader.ts:94-96 | previous targets from any offset read everything before it exactly once in order |
| DocumentWindows.WindowCompletes | extras/docs-mcp/src/reader.ts:94-99 | any window, also a search hit, together with its previous and next windows is the whole document |
| OpenAiReply.InsertToolDetailsInOrder | packages/channel-openai-api/src/server.ts:684-694 | the loop puts each detail at its offset, within the text and never before an earlier one |
| OpenAiReply.ReplySink.constructor | packages/channel-openai-api/src/server.ts:263-274 | an empty reply with the whole budget |
| OpenAiReply.ReplySink.Write | packages/channel-openai-api/src/server.ts:614-619 | a frame is written exactly when it leaves the reserve, and is then charged |
| OpenAiReply.ReplySink.Start | packages/channel-openai-api/src/server.ts:280-285 | the role frame goes out once |
| OpenAiReply.ReplySink.StreamToolDetail | packages/channel-openai-api/src/server.ts:292-295 | a detail is streamed as content but not as text |
| OpenAiReply.ReplySink.StreamText | packages/channel-openai-api/src/server.ts:286-291 | text is streamed as content and remembered |
| OpenAiReply.ReplySink.Emit | packages/channel-openai-api/src/server.ts:297-370 | one reply event on the object is the specified step, in both modes, failures included |
| OpenAiReply.InsertAppend | packages/channel-openai-api/src/server.ts:684-694 | text after every detail comes after them |
| OpenAiReply.InsertLast | packages/channel-openai-api/src/server.ts:339-352 | a detail recorded at the end of the text comes last |
| OpenAiReply.EmittedMirrors | packages/channel-openai-api/src/server.ts:300-365 | an event that the stream survives keeps both replies in step: what is streamed is what would be inserted |
| OpenAiReply.StreamingEqualsBuffering | packages/channel-openai-api/src/server.ts:385-413 | for every event sequence the streamed reply completes on, its concatenated content is the buffered message, which can fail only on its size |
| OpenAiContent.SinkAcceptsExactly | packages/channel-openai-api/src/server.ts:297-365 | read off the list of events alone: the sink survives it if and only if each event fits what came before (sizes, text not taken back from a stream, tool calls new and at most 256, results only for waiting calls, the stream's budget with its reserve of 2 048), and then it has recorded exactly what they say |
| OpenAiContent.CompletesExactly | packages/channel-openai-api/src/server.ts:385-425 | for every list of events and either kind of reply: exactly when the reply completes, and that a stream then shows all text and tool details in the order of the events, a buffered message the text with each detail where the text was when it came |
| OpenAiContent.DetailsStandInOrder | packages/channel-openai-api/src/server.ts:684-694 | whatever the offsets, the last detail stands at the furthest place of any and the others in the text before it as they would in that text alone |
| OpenAiReply.BudgetHolds | packages/channel-openai-api/src/server.ts:610-619 | after any events, failing ones too, bytes written plus bytes left are the limit, and once anything is written terminal frames of up to 2 048 bytes fit |
| BoundedValue.Snapshotter.constructor | packages/core/src/bounded-value.ts:121-137 | nothing charged, nothing copied |
| BoundedValue.Snapshotter.ChargeBytes | packages/core/src/bounded-value.ts:123-129 | bytes are charged, failing beyond the limit |
| BoundedValue.Snapshotter.CountItems | packages/core/src/bounded-value.ts:130-135 | items are counted, failing beyond the limit |
| BoundedValue.Snapshotter.VisitValue | packages/core/src/bounded-value.ts:138-175 | the recursive visit on the object is the specified one |
| BoundedValue.Snapshotter.VisitObject | packages/core/src/bounded-value.ts:176-222 | the same for arrays and records |
| BoundedValue.Snapshotter.CopyEntries | packages/core/src/bounded-value.ts:207-218 | the same for the loop over the entries |
| BoundedCopy.VisitCopies | packages/core/src/bounded-value.ts:176-222 | a visit finishes what it enters, changes no earlier node of the copy, and gives what it returns the right original |
| BoundedCopy.SnapshotReadsAlike | packages/core/src/bounded-value.ts:138-222 | whatever the options, a snapshot that succeeds has the paths of its input: every path leads to the same thing, also around cycles; its nodes are addressed apart from those of the input |
| BoundedCopy.SnapshotIsIsomorphic | packages/core/src/bounded-value.ts:180-205 | with aliases kept it is isomorphic to its input: moreover two paths meet in the copy exactly when they meet in the input |
| BoundedWeight.CycleNeverUnfolds | packages/core/src/bounded-value.ts:181-184 | a value on a cycle has no full unfolding of any depth |
| BoundedWeight.UnfoldedIsAcyclic | packages/core/src/bounded-value.ts:181-184 | a value with a full unfolding is acyclic |
| BoundedWeight.VisitWeighs | packages/core/src/bounded-value.ts:138-222 | a visit succeeds exactly when the weight of the full unfolding fits what is left, and charges exactly that |
| BoundedWeight.SnapshotWeighsUnfolding | packages/core/src/bounded-value.ts:116-225 | without aliases and cycles a snapshot succeeds exactly when the full unfolding exists within depth and is within both limits; it then reports that weight and the input is acyclic |
| BoundedSuccess.SnapshotIsChargedItsCopy | packages/core/src/bounded-value.ts:116-225 | whatever the options, a snapshot is charged exactly what its copy weighs, each node once, and is within both limits |
| BoundedSuccess.SnapshotCutsExactly | packages/core/src/bounded-value.ts:176-222 | with aliases written out a snapshot succeeds if and only if the unfolding, cut where it comes back to a node it is inside of, exists within depth and limits; where cycles are not allowed nothing may come back |
| BoundedSuccess.SnapshotTakesGraphs | packages/core/src/bounded-value.ts:180-222 | with aliases kept every value whose nodes may be taken, weigh together no more than the limits and are fewer than the depth is taken; without cycles allowed, if none lies below itself |
| BoundedWeight.CyclesAreRefused | packages/core/src/bounded-value.ts:180-184 | without cycles allowed a snapshot succeeds on acyclic values only, with aliases kept or written out |
| FrameFitting.CharacterSize | packages/channel-operator/src/projection.ts:642-657 | the count of one character is the UTF-8 size of its JSON form (section 7 of RFC 8259) |
| FrameFitting.CountIsExact | packages/channel-operator/src/projection.ts:638-657 | the counts add up to the exact UTF-8 size of the JSON string body, escapes and lone surrogates included |
| FrameFitting.FitText | packages/channel-operator/src/projection.ts:609-636 | the fitted text is the longest prefix of whole characters within both limits, and is truncated exactly when the whole text does not fit; with a frame that is too large by itself nothing is left of the text |
| OperatorMessageIds.ValidIdsAreShown | packages/channel-operator/src/projection.ts:578-598 | every valid id is shown, the length error never fires, and the receiver's check accepts what is shown |
| OperatorMessageIds.ShownIdsDiffer | packages/channel-operator/src/projection.ts:587-597 | different ids are shown differently, across plain and encoded ones |
| OperatorMessageIds.EncodedInjective | packages/channel-operator/src/projection.ts:593 | the encoding is injective |
| Base64Url.RoundTrip | packages/channel-operator/src/projection.ts:593 | decoding an encoding gives the bytes back (section 5 of RFC 4648) |
| CodecFormats.LettersAreTheTable | packages/channel-operator/src/projection.ts:593 | six bits are written as the letter of table 2 of RFC 4648 and read back as them |
| CodecFormats.SextetsAreTheBits | packages/channel-operator/src/projection.ts:593 | the digits write the number that the bytes write, most significant bit first, zero bits at the end |
| CodecFormats.SextetCount | packages/channel-operator/src/projection.ts:593 | there are as many digits as the bits need |
| CodecFormats.ShownForm | packages/channel-operator/src/projection.ts:578-598 | an id is shown exactly if it has a code unit, no NUL and at most 522 UTF-8 bytes: as it is when it has at most 256 letters, digits and `._:@/-`, a letter or digit first, and otherwise as `message~u16:` and the base64url form of its UTF-16 bytes |
| CodecFormats.Utf16LeUnits | packages/channel-operator/src/projection.ts:593 | the UTF-16 bytes of an id are its code units, low byte first |
| CodecFormats.JsonRoundTrip | packages/channel-operator/src/projection.ts:638-657 | what is counted is a JSON string for the text: a reader of its own (section 7 of RFC 8259) gets the same code units back, lone surrogates included |
| CodecFormats.EscapeDigits | packages/channel-operator/src/projection.ts:642-657 | an escape without a short form is `\u` and four lower-case hexadecimal digits |
| CodecFormats.CountTable | packages/channel-operator/src/projection.ts:642-657 | the count of a character: 2 for a short escape, 6 for other control characters and lone surrogates, otherwise its UTF-8 length |
| CodecFormats.ReceivedForm | packages/operator/src/validation.ts:66-76 | the receiver takes a plain identifier, or the prefix and something from the base64url alphabet, of at most 1 408 letters |
| TelegramReplyCodec.ReplyOptions | packages/channel-telegram/src/delivery.ts:202-218 | labels are accepted exactly when there are one to eight different ones, each a string of 1 to 64 units whose data has at most 64 bytes; each becomes a button with its data |
| TelegramReplyCodec.LabelsDiffer | packages/channel-telegram/src/delivery.ts:211 | two texts share callback data exactly when they differ in nothing but lone surrogates; different well-formed labels never do |
| TelegramReplyCodec.LoneSurrogatesCollide | packages/channel-telegram/src/delivery.ts:207-216 | two lone surrogates are accepted together as labels, and their buttons carry the same data |
| CodecFormats.LabelFits | packages/channel-telegram/src/delivery.ts:211-213 | a label is acceptable exactly when it has 1 to 64 code units and at most 43 UTF-8 bytes |
| CodecFormats.ReplyForm | packages/channel-telegram/src/delivery.ts:211 | a button carries `reply:` and the base64url form of the label's UTF-8 bytes |
| CodecFormats.Utf8Table | packages/channel-telegram/src/delivery.ts:211 | the table of section 3 of RFC 3629: how long a character is written, which bits say so, and that the others are the character's |
| CodecFormats.PairsInOrder | packages/channel-telegram/src/delivery.ts:211 | surrogate pairs, in order, write the characters from U+10000 to U+10FFFF |
| Unicode.Utf8Concat | packages/channel-telegram/src/delivery.ts:211 | joining texts joins their UTF-8 bytes unless a surrogate pair forms across the seam (section 3 of RFC 3629) |
| TelegramReplyCodec.LabelRoundTrip | packages/channel-telegram/src/index.ts:1358-1369 | accepted data decodes to its label with lone surrogates replaced, hence to the label itself exactly when it is well formed |
| TelegramReplyCodec.LoneSurrogateIsReplaced | packages/channel-telegram/src/index.ts:1358-1369 | a label that does not come back: a lone surrogate is accepted and decodes to the replacement character |
| TelegramReplyCodec.AcceptedExactlyEncoded | packages/channel-telegram/src/index.ts:1358-1369 | the decoder accepts exactly the data the encoder makes, and what it returns encodes to the same data |
| CodecFormats.DecodesFirst | packages/channel-telegram/src/index.ts:1362 | the decoder reads the character that the bytes begin with; if they begin with none, U+FFFD stands for the longest part with which one could have begun, or for one byte |
| Unicode.Utf8RoundTrip | packages/channel-telegram/src/index.ts:1362 | encoding and decoding gives the text back, lone surrogates replaced |
| Unicode.WellFormedIsKept | packages/channel-telegram/src/index.ts:1362 | replacement changes exactly the texts with lone surrogates |

## Left out

- SlackInbox.ValidateState: timestamps, the fields of events (an event is an id and a payload) and the byte limit, which is a flag of each call.
- SlackChannelEndings.TroubleForbidsRequeue: the check of what is still in flight after the requeue, and a shutdown whose workers do not settle in time.
- Slack: JSON encoding; directory identities, owner checks and discovery of inbox directories.
- Slack: the worker request flags and the admission order; a worker may start whenever the channel runs, which is more than the source does.
- SlackInbox.SlackInbox.Close: waiting for queued calls; in the state machine a process ends by the crash step.
- SlackChannelTheorems.NoAcknowledgedLoss: events of unauthorized senders, which the socket acknowledges without enqueueing them, are outside `acked`.
- TelegramLedger.Channel.StartTrackedUpdate: launching the processing, and the chat and readiness variables.
- TelegramLedger.Channel.NewUpdates: the order of the list, which the source sorts; the received ids are sorted by `Track`.
- Telegram: how `isControlUpdate` decides and when deferred updates are tried again; reactions, notices and the health summary; `finishShutdown` clearing the ledger.
- Telegram: tracked updates are values in a map, so the aliasing between the lane variables and the map is not captured.
- Lease: SQLite itself (an exclusive lock freed on death), file modes, owners, sidecar files and the application id; a creation that fails before it knows the file's identity leaves the file, as a process that stops does. What recovery deletes is one step of the holder here and is modelled in full in the recovery modules.
- CurrentRunClosure.CrashClosed: an agent that removes or replaces a file just while it has two links; I/O errors are the fail step of the stage they occur in.
- CurrentRunRecovery.RunRoot.ClaimAndDelete: a failure after the rename, and putting the entry back, are in the interleaved model and not in this object.
- CurrentRunRecovery.RunRoot.Recover: revalidation between scan and deletion always succeeds, as it does while nobody else writes to the root; the lease sees to that unless a creation has failed beside a holder (`ExclusionFailsExactly`). Owners and modes are taken to be right.
- CurrentRunRemoval.CleanUp: errors of the file system itself; a deletion fails only for the reasons the code checks.
- BoundedSuccess.SnapshotTakesGraphs: with aliases kept the depth is asked to exceed the number of nodes; a smaller depth may do, depending on the order in which aliases are met.
- WebhookDuplicates.OnlyRetriesWhileRetained: request and status bodies, the status map and its capacity (a flag of each step), and which answer a waiter gets.
- MarkdownDocuments.ExcerptReadsLikeDocument: the trimming of the excerpt's ends by the reader; under section 4.5 of the CommonMark Spec, slices that cut a line, fences inside containers (its section 5), HTML blocks (its section 4.6), in which a line of backticks is no fence, and carriage returns that are line endings of their own.
- MarkdownCuts.AnyExcerptReadsLikeSource: slices that cut a line are read as the repository reads fences; and the trimming of the excerpt's ends.
- MarkdownMeaning.DocumentKeepsMeaningExactly: the same.
- DocumentWindows: anchors, chunks and how targets are parsed; the excerpt a window shows is only its length.
- OpenAiReply.ReplySink.Emit: emits that are not awaited. The first emit suspends inside `startStream` (packages/channel-openai-api/src/server.ts:280-285), and each may suspend while the response drains, so a second emit that does not wait for it overtakes it. Core awaits its text and tool emits (packages/core/src/host.ts:911-959), which is why they run one after the other here.
- OpenAiReply.StreamingEqualsBuffering: the same; overtaking emits could write chunks in another order than the text was recorded.
- OpenAiReply: disconnects of the response, the JSON around content, usage numbers and request parsing.
- BoundedValue: property descriptors, prototypes and freezing (a node is plain or not); a byte array is copied as a value.
- FrameFitting.FitText: the frame around the text is a constant number of bytes.
- TelegramReplyCodec.ReplyOptions: the shape of the metadata around the list of labels.
- HTTP, WebSocket and fetch plumbing, authentication, configuration parsing, the search index, the CLI and the website.
- Delivery receipts, frame writers, effort escalation and usage merging, which would add easy members only.
