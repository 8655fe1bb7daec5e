# agentsdk: conversations, logs, context, turns

A Dafny model of the stateful core of agentsdk, with proofs of what its parts promise each other.

- **Conversation history.** Turns are committed to an append-only thread log and then to a parent-linked tree. A
  compaction adds a summary node that replaces older nodes and moves a per-branch floor. Projection re-orders
  summaries and drops replaced nodes; normalisation repairs tool calls without results. Resuming rebuilds the tree
  from the log.
- **Branching thread log.** One log per thread serves all branches: a branch sees, through windows of sequence
  numbers, its own events and those its ancestors had at the fork.
- **Context manager.** Renders are prepared on a copy, diffed against the last render and committed under a version
  check; the changes go to the log as fragment events and as a snapshot.
- **Turn runner.** A bounded loop over streamed answers and tool calls, with one prepared request to settle per step.
- **Trigger scheduler.** Jobs fired while earlier runs are still executing.
- **Resource resolver.** References resolved through a name index, aliases and a cache of decisions.

Code that changes state step by step is modelled by classes and loops, each proved against a function; the theorems
are about those functions and about whole runs of them. What the main functions compute is also told without them,
from the inputs alone: `NormalizedItems`, `ProjectedItems`, `StreamedCalls`, `TurnSteps`, `References` and the members
named `…Exactly`. Runs, interleavings and environments are arbitrary: which
operations happen, in which order, which calls fail, what providers and tools answer, and when a turn is cancelled.

## How the parts fit

| part | files |
|---|---|
| shared sequences and messages | `Sequences`, `Unified` |
| items, pairing, normalisation | `Items`, `Pairing`, `Normalization`, `NormalizedItems`, `Requests` |
| projection and compaction | `Projection`, `ProjectedItems`, `Compaction`, `LivePath`, `NormalFormExact`, `CompactionFloor`, `LateSummary`, `CompactionAfterResume`, `CompactedRequest` |
| tree, log events, history | `ConversationTree`, `HistoryEvents`, `HistoryRun`, `ResumedTree`, `ForkedHistory`, `TurnFragment`, `History` |
| thread store | `ThreadStore`, `ThreadViews`, `ThreadImport`, `MemoryStore` |
| context manager | `KeyOrder`, `ContextRecords`, `ContextPrepare`, `ContextShortcut`, `ContextReplay`, `ContextAttribution`, `ContextContents`, `ContextRuns`, `ContextFastPath`, `ContextManager`, `ContextCommits`, `ContextLog`, `ContextRuntime` |
| turn runner | `StreamCalls`, `StreamedCalls`, `StreamMessage`, `ToolBatch`, `Transcript`, `TurnSteps`, `TurnRunner`, `PreparerChain` |
| scheduler, resolver | `Scheduler`, `ResourceIndex`, `Resolver`, `References` |

## Properties that fail, and exactly when they hold

- Compacting after a resume can put summaries out of order, and a fork then shows them differently:
  `CompactionAfterResume.FloorShowsAfterResume`. Branch and fork agree exactly when
  `CompactionAfterResume.FloorHiddenAfterResumeExactlyWhen` says; the order is kept exactly when
  `CompactionAfterResume.NormalAfterResumeExactlyWhen` says, and for every path `NormalFormExact.NormalFormExactlyWhen`.
- Resuming a fork does not rebuild what it inherited: `ForkedHistory.ForkedTurnIsLost`, and after any turns of its own
  `ForkedHistory.ForkForgets`; exact condition `ResumedTree.RebuiltExactlyWhen`.
- A call outside a message or assistant turn stays unanswered: `Requests.FragmentCallStaysOpen`; exact condition
  `Pairing.NormalizedIsPairedExactlyWhen`.
- History and turn may reuse a call id: `Requests.RepeatedCallBreaksRequest`; exact condition
  `Requests.RequestIsPairedExactlyWhen`.
- An imported thread differs if an event names an unknown branch or a caller appended an event of the store's own
  kinds: `ThreadImport.UnknownBranchComesBack`, `ThreadImport.CallerArchiveComesBack`; exact condition
  `ThreadImport.ImportRoundTrip`.
- Imported branch records can form a cycle, on which reading a branch does not end: `ThreadImport.ImportedCycle`.
- A render whose commit is refused stays in the log and is what a resume restores:
  `ContextLog.RefusedCommitIsRestored`; exact condition `ContextLog.InStepExactlyWhen`.
- A fragment key that moves between providers is logged under the wrong one: `ContextRuns.MovedKeyIsLost`; exact
  condition `ContextAttribution.ReplayExactlyWhen`, over runs `ContextRuns.FoldExactlyWhen`.
- With overlapping runs the running flag goes down too early: `Scheduler.OverlapLosesTheFlag`; exact condition
  `Scheduler.OneAtATimeExactlyWhen`.
- The resolver's cache can return a neighbour of the resource first found: `Resolver.SlashShadows`; exact condition
  `Resolver.TransparentExactlyWhen`.
- A call start after other events of its index, or an id shared by two indices, spoils the assembled calls:
  `StreamCalls.LateStartSplits`, `StreamCalls.SharedIdMerges`; exact condition `StreamCalls.KeptApartExactlyWhen`.

## Model

| member | source | states |
|---|---|---|
| Unified.SanitizeMessageForRequest | conversation/projection.go:17-43 | an assistant message loses `resp_` ids and unsigned reasoning, other messages nothing |
| Unified.SanitizeContentParts | conversation/item.go:321-345 | images and files without a source are dropped, everything else kept in order |
| Items.ExpandAll | conversation/item.go:170-223 | each carrying item is followed by its reasoning, call, result and continuation items |
| Items.ExpandKeepsMessages | conversation/item.go:170-223 | expansion adds or removes no message |
| Items.DerivesExactly | conversation/item.go:170-223 | the derived items are one for each reasoning part, call, result and continuation, and nothing else |
| Items.SanitizeToolCalls | conversation/item.go:347-356 | exactly the calls with id and name are kept |
| Items.SanitizeToolResults | conversation/item.go:358-375 | exactly the first answers to pending calls are kept, and recorded as completed |
| Items.ScanNext | conversation/item.go:230-265 | one item of the first pass: trimmed message, pending and completed ids; what that keeps of every item is `NormalizedItems.NormalizedExactly` |
| Items.RepairPass | conversation/item.go:269-304 | a synthetic tool message follows each turn with open calls, and only those |
| Items.NormalizeItems | conversation/item.go:225-305 | the loops compute normalisation of the unexpanded items, with the early return when nothing is pending; which parts, calls and results that is, `NormalizedItems.NormalizedExactly` tells from the items |
| NormalizedItems.NormalizedExactly | conversation/item.go:225-305 | for every list of items the result is, item by item and in order: the message with its role and name, exactly the parts that may be shown, an assistant's first valid calls, a tool's first answers to open calls, nothing for an item with none of these; after a turn with calls nothing answers, one tool message that reports them missing |
| NormalizedItems.VanishesExactly | conversation/item.go:256-264 | an item is dropped iff it is not for the provider or has no part that may be shown and, for an assistant, no first call and no result, for a tool, no first answer, for another role, no call and no result |
| NormalizedItems.ComesOut | conversation/item.go:225-305 | an item that does not vanish has its message, with those parts, calls and results, at its place in the request |
| NormalizedItems.InOrder | conversation/item.go:225-305 | places follow the order of the items, each its own |
| Pairing.NormalizedIsPairedExactlyWhen | conversation/item.go:225-305 | every call answered once and later, no answer without a call, if and only if no unanswered call was first made outside a turn |
| Pairing.CallAnsweredLater | conversation/item.go:225-305 | in a well-paired request each call has a result in a strictly later tool message |
| Pairing.ResultCalledEarlier | conversation/item.go:225-305 | in a well-paired request each result has its call in a strictly earlier assistant message |
| Pairing.LeftOpenExact | conversation/item.go:225-305 | which calls the repair leaves open, told from the input |
| Normalization.NormalizeIdempotent | conversation/item.go:225-305 | normalising twice is normalising once, for every input |
| Normalization.UnchangedExactlyWhenStable | conversation/item.go:225-305 | exactly the stable lists are left alone |
| Normalization.NothingInvented | conversation/item.go:225-305 | apart from synthetic results the output is the input with things deleted, in order |
| Normalization.RequestTraffic | conversation/item.go:225-305 | an id is called in the output iff it was first called in the input, and answered iff it was answered later or called in a turn |
| Normalization.MessagesAlike | conversation/item.go:158-168 | the request depends only on the messages and on which items are turns |
| Normalization.ConcatPairedExactlyWhenDisjoint | conversation/projection_policy.go:99-122 | a well-paired history and any normalised pending messages form a well-paired request iff the pending ones are well paired and share no call id with it |
| Normalization.RenormalizeExactlyWhenPaired | conversation/item.go:225-305 | normalising a finished request again changes nothing iff it is well paired |
| Requests.MessagesFromItems | conversation/item.go:158-168 | the request messages are exactly those the items' own parts, first calls and first answers give, in order |
| Requests.DefaultProject | conversation/projection_policy.go:99-122 | without a continuation the history's messages are a prefix and exactly the turn's own follow it; with one, the turn's messages only |
| Requests.HistoryIsPaired | conversation/item.go:39-168 | whatever tree, branch, floor and replacement, the projected history is well paired |
| Requests.RequestIsPairedExactlyWhen | conversation/projection_policy.go:119-121 | messages made of any history and, behind it, any pending items are well paired iff every unanswered pending call was made in a turn and no call id of the history is reused |
| Requests.TurnIsPairedExactlyWhen | conversation/projection_policy.go:104-117 | the turn alone, as sent with a continuation, is well paired iff every unanswered call was made in a turn |
| Requests.FragmentCallStaysOpen | conversation/item.go:269-304 | an unanswered call in a context fragment goes out unanswered |
| Requests.RepeatedCallBreaksRequest | conversation/projection_policy.go:119-121 | a turn that repeats a call id of the history makes a request that is not well paired |
| Projection.PlaceCompaction | conversation/item.go:135-156 | a summary is placed at its first replaced node on the path, or at itself |
| Projection.ProjectItems | conversation/item.go:39-128 | the collecting, sorting and merging loops compute: at each position its summaries, then its own item if it survives; what every item says is `ProjectedItems.ProjectedExactly` |
| ProjectedItems.ProjectedExactly | conversation/item.go:39-156 | for every path: shown are exactly the summaries and the nodes no summary lists, each once; a message or assistant turn with its own message, a summary as a user message whose only part is its text; ordered by the first listed node, summaries of one place by age and in front of the node there |
| ProjectedItems.SummaryReachesProvider | conversation/item.go:307-319 | a summary on the path is sent as a user message that says exactly the summary |
| ProjectedItems.SurvivorReachesProvider | conversation/item.go:39-168 | a message no summary lists is sent with its role, its name and the parts that may be shown |
| CompactedRequest.SummaryIsSent | runtime/history.go:194-236 | on every live conversation, whatever its floor, every summary ever written is sent with its text |
| CompactedRequest.MessageIsSent | runtime/history.go:194-236 | and every message no summary replaced is sent |
| CompactedRequest.CompactionIsSent | runtime/history.go:194-236 | after a compaction the request for any branch name holds a user message with exactly the new summary |
| CompactedRequest.WindowIsSent | agent/compact.go:184-207 | and every message of the kept window that was not replaced before |
| Projection.SortListsSummaries | conversation/item.go:103-112 | the stable sort keeps summaries of one place in creation order |
| Projection.NothingReplaced | conversation/item.go:39-128 | a path without replacements is projected node by node |
| Compaction.OrderedGivesNormalForm | conversation/item.go:39-156 | ordered placements in front of all survivors give the normal form: summaries in creation order, then survivors |
| Compaction.CutProjection | conversation/item.go:39-156 | a path cut where everything below is replaced, with summaries placed in order and in front, shows the normal form of the whole path |
| NormalFormExact.NormalFormExactlyWhen | conversation/item.go:39-156 | for every path the projection is in normal form iff placements are ordered and in front of survivors |
| LivePath.LiveProjection | conversation/item.go:39-156 | a live path shows its normal form from every cut at or below the floor |
| LivePath.LiveCommit | runtime/history.go:343-406 | committing a node keeps the live invariant |
| LivePath.LiveCompact | runtime/history.go:194-236 | a compaction of the chosen nodes, with its floor, keeps the live invariant |
| LivePath.ResumedFloorBelow | runtime/history.go:69-97 | the floor found on resume is never above the live floor |
| LivePath.ResumedProjection | runtime/history.go:69-97 | from the resumed floor the projection is that of the live floor |
| CompactionFloor.SelectCompactionNodes | agent/compact.go:184-207 | all visible nodes but the last `keepWindow`, without earlier summaries |
| CompactionFloor.FindUnlisted | runtime/history.go:221-236 | the first visible node that is not replaced |
| CompactionFloor.FloorIndexCuts | conversation/tree.go:181-209 | what the walk from the head collects is the chain from the floor's position on |
| LateSummary.CutShowsSameExactlyWhen | conversation/item.go:39-156 | a path and its cut project alike with one more summary iff on both it is listed behind the same earlier summaries |
| CompactionAfterResume.NormalAfterResumeExactlyWhen | runtime/history.go:69-97 | compacting after a resume keeps the normal form iff no earlier summary starts behind the first ordinary node from the resumed floor on |
| CompactionAfterResume.FloorHiddenAfterResumeExactlyWhen | runtime/history.go:69-97 | compacting after a resume leaves branch and fork showing the same iff the earlier summaries that start no later than the new one are the same from the new floor as from the root, told from the path before |
| CompactionAfterResume.FloorShowsAfterResume | runtime/history.go:69-97 | a run with a resume between two compactions after which a fork shows another order than its parent |
| ConversationTree.ChainIsPath | conversation/tree.go:181-209 | a linked path held by the tree is what following parents from its last node gives |
| ConversationTree.MakeNodes | runtime/history.go:347-369 | a batch becomes a chain below the head, refused if an id is taken |
| ConversationTree.Tree.InsertNode | conversation/tree.go:68-97 | a node is added under an existing parent and becomes the head; errors and other branches change nothing |
| ConversationTree.Tree.InsertChain | runtime/history.go:400-404 | a batch extends its branch's chain and no other, and cannot fail half-way |
| ConversationTree.Tree.Fork | conversation/tree.go:106-124 | a fork has its parent's chain and shows all of it unless a floor was set for its name before; no other branch shows anything else |
| ConversationTree.Tree.MoveHead | conversation/tree.go:126-142 | the branch shows the chain of the new head |
| ConversationTree.Tree.Path | conversation/tree.go:181-209 | terminates and returns the chain from the floor on, or all of it; an error for an unknown branch |
| HistoryEvents.PayloadRoundTrip | runtime/history_events.go:49-151 | decoding an encoded payload loses only that a plain assistant message comes back as an assistant turn |
| HistoryEvents.UnchangedByLog | runtime/history_events.go:49-151 | exactly the other payloads come back unchanged |
| HistoryEvents.ContentPartsToWire | runtime/history_events.go:329-365 | what it writes reads back as the same parts |
| HistoryEvents.ContentPartsFromWire | runtime/history_events.go:367-388 | part by part, in order |
| HistoryRun.LogMatchesConversation | runtime/history.go:343-406 | in every reachable state the log on main decodes to the conversation's nodes, linked, distinct and on main |
| HistoryRun.ResumeEqualsLive | runtime/history.go:54-102 | at every point of every run the rebuilt conversation sends a provider the live one's messages |
| HistoryRun.FloorIsInvisible | conversation/tree.go:181-209 | at every point of every run the view with the floor and a fork's view without it are the normal form |
| ResumedTree.RebuiltExactlyWhen | runtime/history.go:70-94 | for every log that is accepted, the resumed branch holds all its nodes iff there are none, or they are linked one to the next and the last is recorded under that branch |
| ResumedTree.HeadExactlyWhen | runtime/history.go:86-93 | after a resume a branch exists iff it is main or some conversation event is recorded under it |
| ResumedTree.RebuiltEqualsLive | runtime/history.go:54-102 | at every point of every run inserting main's log succeeds and shows the live messages |
| ForkedHistory.ForkForgets | runtime/history.go:54-102 | after any run of turns on a fork, with anything else happening on the thread, resuming the fork shows exactly its own turns, although its log holds every inherited node |
| ForkedHistory.ForkOfMainForgets | runtime/history.go:54-102 | so for a fork of main at any point of any run: none of main's conversation is shown |
| ForkedHistory.ForkedTurnIsLost | runtime/history.go:86-93 | a thread with one turn, forked: the log of the fork holds the turn and the resumed fork shows nothing |
| TurnFragments.TurnFragment.Payloads | conversation/turn_fragment.go:50-73 | only a complete, unfailed, non-empty turn gives payloads: its messages, then the assistant turn, never a summary |
| History.MakeEvents | runtime/history.go:383-396 | one event per node with its id and parent |
| History.History.AppendPayloads | runtime/history.go:343-406 | log and tree both take the whole batch, or neither changes; exactly when it succeeds |
| History.History.Commit | runtime/history.go:343-406 | succeeds iff no id is taken and the batch can be recorded; then the conversation grows by the batch below its head and keeps its floor, and the log by the events; otherwise nothing changes |
| History.History.CommitFragment | runtime/history.go:319-328 | succeeds iff the turn is ready and its batch can be committed; then the turn is one batch in conversation and log, otherwise nothing changes |
| History.History.LogKeepsUp | runtime/history.go:381-404 | a recorded batch keeps the log on main decoding to the extended conversation |
| History.History.LoggedInStep | runtime/history.go:343-406 | whatever commits a batch or a summary leaves log and conversation in step if they were |
| History.History.SetCompactionFloor | runtime/history.go:221-236 | the floor moves to the first visible node not replaced, if there is one |
| History.History.CompactContext | runtime/history.go:194-216 | succeeds iff there is a summary, every replaced node is known and the node can be committed; then one summary node and the new floor, otherwise nothing changes |
| History.History.Compact | agent/compact.go:104-156 | a summary is committed iff there is something to replace, a summary text and a node that can be committed; the request fails without a trace otherwise, and with the summary committed when the render after it fails |
| History.History.Resume | runtime/history.go:54-102 | succeeds iff every event finds its parent and a new id; heads, chain and floor of the rebuilt branch |
| ThreadStore.BranchWindows | thread/store.go:133-162 | wherever the walk to the root ends, each ancestor's window ends where the next one forked; an error if an ancestor is missing |
| ThreadStore.EventsForBranch | thread/store.go:100-126 | exactly the events in the windows, in log order; an error if an ancestor is missing; for a live thread this is the branch's view |
| ThreadStore.ViewFoundOnRooted | thread/store.go:133-162 | the walk ends for every branch when fork points decrease towards the root |
| ThreadStore.CycleNeverEnds | thread/store.go:141-148 | it never ends for a branch that is its own ancestor |
| ThreadStore.Forked | thread/memorystore.go:222-267 | a fork keeps a live thread well formed |
| ThreadViews.ForkSnapshots | thread/memorystore.go:222-267 | a fork shows its parent's view and its creation event; no other view changes |
| ThreadViews.AppendExtendsOneView | thread/memorystore.go:344-368 | an append extends its own branch's view and no other |
| ThreadViews.BranchesAreIsolated | thread/store.go:100-162 | in every run each branch's view is the private list it would have, copied at the fork |
| ThreadImport.ImportedIs | thread/memorystore.go:48-140 | importing any thread's log gives the thread its last creation, archiving and branch records describe |
| ThreadImport.UnbranchedGoesToMain | thread/memorystore.go:48-93 | an imported event without a branch is kept on main, otherwise as it is |
| ThreadImport.ImportRoundTrip | thread/memorystore.go:48-140 | for every run, whatever callers append, importing the log gives the thread back iff its last root, metadata, archiving mark and branch records are the thread's |
| ThreadImport.PlainRoundTrip | thread/memorystore.go:48-140 | when callers append none of the store's own event kinds: iff every event names a registered branch |
| ThreadImport.UnknownBranchComesBack | thread/memorystore.go:88-93 | a run whose log comes back with a branch that was never created |
| ThreadImport.CallerArchiveComesBack | thread/memorystore.go:125-130 | a run with an archiving event appended by a caller: live unarchived, imported archived |
| ThreadImport.ImportedCycle | thread/memorystore.go:106-123 | two imported branch records that name each other, on which the view never returns |
| MemoryStore.Store.Import | thread/memorystore.go:48-140 | imports up to the first refused event |
| MemoryStore.Live.Append | thread/memorystore.go:381-416 | all events of a batch or none; the log goes on with them in order, node, parent and content as given, numbered consecutively, on their own branch and session or the handle's |
| MemoryStore.AppendLocked | thread/memorystore.go:344-368 | the log goes on with the given events, unchanged but for thread, branch and consecutive numbers |
| KeyOrder.AscendingUnique | agentcontext/record.go:36-49 | a sorted key list is determined by its elements, so map order does not show |
| ContextRecords.NormalizeFragments | agentcontext/manager.go:338-352 | refuses empty and repeated keys, otherwise orders by key |
| ContextRecords.ActiveFragments | agentcontext/record.go:32-50 | the fragments that are not tombstones, ordered by key |
| ContextRecords.BuildProviderRecord | agentcontext/manager.go:277-336 | every rendered fragment is kept with its key and text under its own fingerprint or the hash; what was shown and is not rendered leaves its last fingerprint; added, updated, unchanged and removed are exactly those by comparison with what was shown |
| ContextPrepare.Prepare | agentcontext/manager.go:164-236 | fails iff some provider fails; otherwise each provider's result and the aggregates |
| ContextShortcut.SkipExactlyWhen | agentcontext/manager.go:198-213 | a full rendering would report no change iff it shows the recorded fingerprints |
| ContextShortcut.SkipShowsSame | agentcontext/manager.go:198-213 | then its record shows what the kept one shows |
| ContextShortcut.ListingInjective | agentcontext/fingerprint.go:29-39 | the text hashed for a provider determines its keys and fingerprints, if they hold no NUL |
| ContextShortcut.SkipIsSound | agentcontext/manager.go:198-213 | a provider whose state fingerprint is unchanged would report no change, if its own fingerprint does not repeat for other fragments, or the hash does not collide on the two listings |
| ContextFastPath.FastPathExactlyWhen | agentcontext/manager.go:164-236 | over whole runs a manager with the fast path shows what one without it shows iff every skipped provider would have shown what is recorded; then every render reports the same changes |
| ContextReplay.FindHolder | runtime/thread_runtime.go:558-565 | the first provider whose record mentions the key |
| ContextReplay.ContextRenderEvents | runtime/thread_runtime.go:475-534 | recorded, removed, snapshot and committed events of a render, in order |
| ContextReplay.ReplayContextRenders | runtime/thread_runtime.go:268-300 | the last snapshot, or the fold of the fragment events if there is none |
| ContextAttribution.ChangesWritten | runtime/thread_runtime.go:475-534 | whatever any render changes is written with its new state, a change under the first provider that mentions the key |
| ContextAttribution.ReplayExactlyWhen | runtime/thread_runtime.go:393-448 | folding a render's fragment events reproduces the new state iff every changed fragment is attributed to its provider |
| ContextContents.ChangedComesBack | runtime/thread_runtime.go:393-426 | then every added or updated fragment comes back from the fragment events with its text and fingerprint |
| ContextContents.RemovedComesBack | runtime/thread_runtime.go:428-448 | and every removal as the mark of what was last shown |
| ContextRuns.FoldExactlyWhen | runtime/thread_runtime.go:393-448 | fragment events alone keep in step throughout a run iff every render is attributed correctly |
| ContextRuns.OwnKeysFold | runtime/thread_runtime.go:558-565 | they always do when each key belongs to one provider |
| ContextRuns.MovedKeyIsLost | runtime/thread_runtime.go:558-565 | a run in which a key moves and the fold loses it |
| ContextManager.Manager.Register | agentcontext/manager.go:37-63 | succeeds iff names are given and unique, then sorted; on an error those before it stay |
| ContextManager.Manager.SetRecords | agentcontext/manager.go:78-86 | replaces the records under a new version |
| ContextManager.PreparedRender.Commit | agentcontext/manager.go:238-257 | succeeds iff open and unoutdated, replacing exactly the records rendered on |
| ContextManager.PrepareRender | agentcontext/manager.go:164-236 | a render of the copied providers and records, whatever happened since |
| ContextCommits.NoLostUpdate | agentcontext/manager.go:238-257 | in every interleaving the changes form one chain, each commit on the state it rendered, none twice |
| ContextCommits.CommitExactlyWhen | agentcontext/manager.go:238-257 | a render can commit iff open and nothing changed since; otherwise never again |
| ContextLog.MemoryIsLogged | runtime/thread_runtime.go:450-466 | with prepare, append, commit and restore interleaved in any way, the records in memory are those resumed with or a snapshot in the log |
| ContextLog.ResumeRestoresLast | runtime/thread_runtime.go:268-300 | resuming restores the last render appended, committed or not |
| ContextLog.InStepExactlyWhen | runtime/thread_runtime.go:450-466 | memory holds the last render appended iff it was committed or the records were restored after it; otherwise resuming changes the records unless it made the same ones |
| ContextLog.LostUntilNextAppend | agentcontext/manager.go:238-257 | a render appended after the records moved on stays out of step until the next append or restore |
| ContextLog.RefusedCommitIsRestored | runtime/thread_runtime.go:458-464 | two renders logged, the second refused: memory has the first and resuming restores the second |
| ContextRuntime.ThreadContexts.RenderAndCommit | runtime/thread_runtime.go:450-466 | succeeds iff preparing and appending succeed and no other render commits meanwhile; a refused commit leaves the events in the log; memory is always restorable from some prefix of the log |
| ContextRuntime.ThreadContexts.Replay | runtime/thread_runtime.go:268-300 | from any log the records become the last snapshot, or the fold of the fragment events, or stay |
| StreamCalls.Assembler.Take | runner/runner.go:502-536 | one call event, through builders, first match by index or id, and insertion |
| StreamCalls.FindPlace | runner/runner.go:663-688 | the first call with the index or the non-empty id |
| StreamCalls.KeptApartExactlyWhen | runner/runner.go:502-536 | after every event of any stream each call is what its own events make of it, in order of appearance, iff every start is the first to name its index and no delta or completion carries an id an earlier call has claimed, unless it changes nothing |
| StreamCalls.SeparateAllFit | runner/runner.go:502-536 | starts that come first and ids used for one index each are enough |
| StreamCalls.InterleavingIndependent | runner/runner.go:443-584 | such streams with the same events per index and order of appearance give the same calls |
| StreamCalls.CallAsStreamed | runner/runner.go:521-535 | in such a stream a started call gets its completion's arguments, or else its deltas joined |
| StreamCalls.LateStartSplits | runner/runner.go:502-510 | a start after a delta of its index makes a second call |
| StreamCalls.SharedIdMerges | runner/runner.go:663-671 | a completion under another index but the same id replaces the call |
| StreamedCalls.CallsExactly | runner/runner.go:502-536 | in a stream that keeps calls apart: one call per index that something makes a call for, in order of first appearance, under the last id and name given for it, with the arguments of its completion or else all its deltas joined |
| StreamMessage.ConsumeEvents | runner/runner.go:443-584 | an answer iff no error event, a completion and no cancellation; the message's text, reasoning and signature are the deltas of each joined in order, reasoning in front of text and each only if there is any; id and phase the last given, without ids of stored responses; the finish reason that of the last completion |
| ToolBatch.RunTools | runner/runner.go:203-223 | one result per call under its id and name; for names without NUL every call is settled as `ToolBatch.BatchExactly` says |
| ToolBatch.RunLoop | runner/runner.go:203-223 | the loop with its cancellation flag and memory of executed calls |
| ToolBatch.ResultNamed | runner/runner.go:206-223 | every call gets one result, under its own id and name |
| ToolBatch.BatchExactly | runner/runner.go:203-223 | for names without NUL a call is executed iff nothing stopped the batch and no earlier executed call has its name and canonical arguments; its result is its own outcome, that of such a call, or an error saying it was canceled |
| ToolBatch.KeyExactlyWhen | runner/runner.go:643-654 | the key of two calls is the same iff name and canonical arguments are |
| ToolBatch.InterruptsExactly | runner/runner.go:216-218 | an outcome stops the batch iff the turn is cancelled after it or its only text is one of the two marks |
| Transcript.InjectKeepsClosed | runtime/thread_runtime.go:833-855 | adding the context diff keeps a transcript closed |
| Transcript.InjectAdds | runtime/thread_runtime.go:833-855 | the diff is added once as a text part and nothing is lost: behind a tool message as a user message of its own, otherwise in front of the last message's content |
| TurnSteps.InjectKeeps | runtime/thread_runtime.go:833-855 | so a preparer that adds it is one that keeps requests closed |
| Transcript.ClosedIsPairedExactlyWhen | runner/runner.go:247-258 | a closed transcript is well paired iff no call id occurs twice |
| TurnRunner.CommitPrepared | runner/runner.go:381-397 | events first, then one commit, or one rollback; exactly when it succeeds |
| TurnRunner.CommitFinal | runner/runner.go:399-429 | fragment and events first, then one commit, or one rollback; exactly when it succeeds |
| TurnRunner.RunStep | runner/runner.go:86-234 | exactly when the step goes on, completes, and persists; what it goes on with or persists is its prepared messages, then the streamed answer, then one tool message if that has calls; its prepared request settled exactly once, logged before committed |
| TurnRunner.RunTurn | runner/runner.go:53-258 | the turn is a story of such steps from the request on; every request settled once, at most one transcript persisted, by the last step or the recovery, and closed if the request is and preparers keep it so |
| TurnSteps.GoesOnWith | runner/runner.go:83-234 | a transcript the turn goes on with or recovers is the request, rewritten by each step's preparer and extended by that step's answer and tool message, step by step |
| TurnSteps.PersistsWith | runner/runner.go:174-196 | so is what the last step persists |
| TurnSteps.RequestComesFirst | runner/runner.go:83-258 | with preparers that leave the messages alone, all of these are the request followed by what the steps added |
| TurnSteps.StopsExactlyWhen | runner/runner.go:174-258 | a turn goes on exactly after answers with calls that are not cancelled and after commentaries; the last step decides whether it completes and whether it persists |
| TurnSteps.StaysClosed | runner/runner.go:198-258 | from a closed request whatever goes on or is persisted is closed |
| PreparerChain.Prepare | runtime/thread_runtime.go:675-686 | if the second part fails the first is rolled back |
| PreparerChain.Chained.Commit | runtime/thread_runtime.go:690-703 | both parts settled exactly once, the second committed only if the first is |
| PreparerChain.Chained.Rollback | runtime/thread_runtime.go:704-711 | both parts rolled back exactly once |
| Scheduler.Conservation | trigger/scheduler.go:198-230 | in every interleaving fired = matched + skipped and matched = completed + failed + in flight |
| Scheduler.OneAtATimeExactlyWhen | trigger/scheduler.go:265-290 | at most one run in flight, exactly while the flag is up, in every interleaving iff the policy skips |
| Scheduler.OverlapLosesTheFlag | trigger/scheduler.go:283-290 | otherwise the flag can be down while a run executes |
| ResourceIndex.MatchRef | resource/identity.go:143-190 | name and qualifier, by suffix or by origin and suffix |
| References.MatchesExactly | resource/identity.go:143-190 | for identities without colons, a reference names one iff it spells an end of its namespace and its name, with the origin in front or not |
| ResourceIndex.Index.Add | resource/index.go:20-30 | adds once; buckets keep the order of addition |
| ResourceIndex.Index.LookupRef | resource/index.go:54-73 | finds exactly what a scan of everything by kind and reference finds, in order |
| ResourceIndex.OwnAddress | resource/identity.go:105-111 | an identity with at most one namespace segment matches its own address |
| Resolver.ByPrecedence | resource/resolver.go:27-57 | the candidate that outranks all others, or an error if there is none |
| Resolver.Resolver.Resolve | resource/resolver.go:123-162 | alias, cache, lookup and policy, and what is remembered |
| References.ResolvesExactly | resource/resolver.go:141-162 | nothing that answers is an error, one resource is the answer, between several the policy decides, given them in order |
| References.AliasExactly | resource/resolver.go:123-128 | an alias stands for its target from then on, and no other reference changes |
| Resolver.TransparentExactlyWhen | resource/resolver.go:123-162 | for any kinds and references, cached and uncached answers agree in every sequence of resolutions and alias changes iff, for any two queries with one cache key, the decision of the first found for the second is what the second resolves to |
| Resolver.WordsTransparentExactlyWhen | resource/resolver.go:123-162 | for kinds without a colon, iff no resource is shadowed by an impostor |
| Resolver.PlainResourcesTransparent | resource/resolver.go:129-139 | they agree for colon-free identities with at most one namespace segment |
| Resolver.SlashShadows | resource/identity.go:105-111 | a resource in namespace a, b is shadowed by its neighbour in namespace a/b |

## Modelling decisions

- Generated ids are parameters, required fresh where the source generates them. Timestamps, event ids, schema
  versions and error texts are dropped. JSON is the identity on wire records; SHA-256 is a function parameter, assumed
  free of collisions only where a lemma says so.
- A payload held by value or by reference is the same payload; nil payloads do not occur.
- A summary is the text after trimming. Usage is a token and a cost total.
- Locked sections are atomic steps. Version counters do not overflow.
- Provider, tool and client answers, failures of appends and commits, and cancellations are parameters.
- Hooks a preparer leaves out count as hooks that do nothing.
- The event registry is a predicate on events; the store does not consult it for the events it writes itself.
- The order in which Go walks a map is left open where it shows (removed fragments).

## Left out

- MemoryStore.Store.Fork: the source registers the branch before it validates the event; the model assumes the store's own events are accepted.
- StreamMessage.ConsumeEvents: usage, routing, warnings and the diagnostic facts about a stream are not modelled.
- ToolBatch.BatchExactly: for tool names without NUL, which the source uses to separate name and arguments.
- ContextContents.ChangedComesBack: a fragment whose fingerprint did not change is not logged; if its text did, a replay keeps the earlier text.
- Resolver.TransparentExactlyWhen: for an index that does not change meanwhile; a resource added later can be masked by a cached decision.
- TurnRunner.RunTurn: an executor that returns another call's id is not modelled; nor are emitted UI events.
- HistoryRun.ResumeEqualsLive: for the branch main; what holds on forks is stated by ForkedHistory.ForkForgets and, for any log, ResumedTree.RebuiltExactlyWhen.
- History.History.Compact: the events of the render that follows a compaction are those of ContextRuntime; in the store's log only the summary is followed.
- ThreadStore.EventsForBranch: says nothing where the walk to the root does not end, because the source does not return there.
- ContextManager.Manager: a build outside a thread commits without a log; only renders of a thread are followed into one.
- Native continuations on the provider side, including which of several is chosen.
- Token estimation, automatic compaction thresholds and the generation of summaries.
- The file-backed thread store, capabilities and their replay, skills, workflows, session hosting, commands, configuration and tool middleware.
- The XML text of a context diff; provider snapshots carried in records.
- Publishing job events to subscribers, job timeouts and trigger sources.
