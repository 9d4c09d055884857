# Verified model of the schematics SDK core

This project models the parts of the SDK in which a simple promise is kept by stateful code, and
proves the promise of the model. `dafny verify dfyconfig.toml` checks all of it.

What is modelled, hardest first:

- **The coalescing dialect handles, the session and the run boundary** (`HandleMachine`, a state
  machine over any number of handles; `HandleInvariant`, `HandleProofs`, `HandleTheorems`; the
  drain in `HandleDrain`, the way to the commit in `HandleFlush`, failures and verdicts in
  `HandleFailures`, taken texts and batches in `HandleBatches`, and that no run gets stuck in
  `HandleProgress`; the premises in `HandlePremises` and, as whole runs that break them, in
  `HandleWitnesses`; the mutable objects themselves in `DialectHandle`). A turn is the stretch
  between two awaits. Handles, batches and reads interleave freely, and a batch that left the
  buffer is serialized, and lands, at later turns of its own. The main result is a refinement:
  coalescing is "write the file back after every op". Structure, poison flag and drain are
  invariants of every run; what a theorem about one handle asks of the author, it asks of that
  handle only.
- **The single-in-flight wire client** (`EngineClient`, `EngineClientProofs`, the object in
  `StdioEngineClient`) in a world that delivers any frames in any order, repeated, foreign and junk
  ones included, lets timers fire at any moment and breaks the channel; what needs a host that
  answers each request once, after it was written, says so (`IsHonestRun`); below it the frame
  reassembler (`FrameReader.dfy`) and the byte budgets (`Wire`, `RequestIds`).
- **YAML anchors and aliases** (`YamlTree`, `YamlAnchors`, `YamlReorder`, `YamlOps`): a node tree
  with the document-order binding of sections 3.2.2.2 and 7.1 of YAML 1.2.2, its data to every
  depth (so cyclic data is covered), and the edits as rewrites that must not change that data;
  what each does to which node is in `YamlEffects`.
- **Format-preserving JSON edits** (`JsonTokens`, `JsonLayout`, `JsonEdits`, `JsonInserts`,
  `JsonMoves`, `JsonSort`, `JsonSortKeys`; the splices in `JsonDocument`): a container's text as
  members, commas, line breaks, blanks and comments; what an edit leaves of that text in
  `JsonFormat` and `JsonSortFormat`; the search for a separator on the characters themselves in
  `JsonSeparator`.
- **The JSON syntax locator** (`JsonGrammar`, `JsonScan`, `JsonScanSound`, `JsonScanComplete`,
  `JsonScanLocal`; its loops in `JsonLocate`) against the grammar of sections 2 to 7 of RFC 8259.
- **Scaffold chunking** (`Chunking`, `Scaffold`, `Directives`) and **the two-phase fake engine**
  with the rejections it raises (`FakeEngine`, `EmitRejection`).
- **The option walk, the import sort and the import op family, the closure worklist and the folder
  walk** (`OptionWalk`, `Imports`, `ImportOrder`, `ImportOps`, `ImportEffects`, `TypeScriptFile`,
  `RunnerClosure`, `FolderWalk`).

Parsers, printers, path functions and the file system are parameters: fields of `Dialect`,
`Paths`, `FileSystem` and the like, so every theorem holds for each choice of them. An object
whose methods assign its fields is a class; its methods are proved against functions on its
abstract state, and the theorems are about those functions.

## What the proofs found

- Serializing a directive while it is still buffered loses edits. `GateKeepsEditExactly` is the
  exact condition: a gate keeps the op's edit if and only if the open directive is not buffered
  with its text already taken. `CommittedMeasurement` is a whole run in which the buffer is
  measured between two ops, as the scaffold's seed measurement does, and the committed file lacks
  the second op. The run theorems have no such measurement among their turns.
- A query that changes the print and changes it back passes its own check, yet a batch serialized
  in between has written the middle text: `CommittedMiddle` is a whole run that commits it.
  `PassingQueryIsExact` is the exact condition: a passing query leaves the file what the finished
  steps make of it if and only if the open directive has not been serialized with another text.
  The theorems about a handle ask that of its own passing queries, and nothing else of queries.
- A step chained while the drain is under way can reject although the run commits, and not only
  because its handle registers late: `LateStepEscapesTheDrain` chains it on a handle the drain has
  already settled. `DrainGoesOnExactly` says what the drain does wait for; that every step chained
  before the author's function returned has succeeded holds in every run that gets past it.
- Such a late step can cost another handle its edits: `LateReadLosesAnotherHandlesEdit` is a whole
  run in which a late read takes the directive of a settled handle into a batch of its own, the
  batch is refused and the run commits. Otherwise late steps of other handles do no harm:
  `CommitWritesEveryEdit` needs only that no batch with the handle's own directive was refused.
- A read under way when another handle's batch is refused can miss its own handle's ops, if that
  batch carried them (`RefusedBatchShowsInTheRead`); any other read is right whatever has failed.
- An answer sent before its request was written is swallowed by the call then waiting
  (`EarlyAnswerIsSwallowed`), so that a live call gets its answer is proved for a host that does
  not do this; the client's own promises hold with any host.
- `setAnchor` keeps every alias on its node if and only if no dangling alias of the new name
  follows the node (`RenameIsExact`).
- `removeAnchor` keeps every target if and only if no name used inside the node is redefined
  before one of the node's aliases (`RemoveAnchorIsExact`; `RedefinedNameCapturesTheCopy` is a
  document whose data changes). An alias inside its own target is lost (`SelfAliasIsLost`).
- The fake engine's commit lands what reads saw if and only if the disk still agrees with the seed
  wherever the staging leaves it alone (`CommitLandsTheView`). At the first commit it does; after
  a commit that deleted a seeded file, reads see the file again (`LaterCommitMissesTheView`).
- The locator reports a misspelt word at its first letter, which can be completed
  (`MisspeltWordIsPinnedAtItsStart`). In general the text up to and with the reported character
  can be completed if and only if the character starts a word and the scan no longer stops there
  once that word is spelt out behind the text in front (`TextWithTheOffsetIsCompletableExactly`).
- In a row, a member put behind a last one that comments follow comes between the two: the comments
  then follow the new member. At any other place, and in line layout, comments stay with the member
  they belonged to (`InsertInRowKeepsHolders`, `InsertAtKeepsTheLines`). An insertion into an empty
  container drops the comments in it (`InsertIntoEmpty`).
- The search for the separator comma takes the opening `/*/` of a block comment for a whole
  comment. It finds the separator in every stretch without such a comment
  (`SearchFindsTheSeparator`); with one that holds no further slash, followed by another comment,
  it misses the separator or stops at a comma inside (`OverlappingCommentMisleads`).
- `src/dialects/yaml/structural.ts` documents `sortKeys` as ordering by code point, but JavaScript's
  `<` compares UTF-16 code units; the model follows the code. The JSON `sortKeys` does compare code
  points.
- The walk of `create` options accepts non-finite numbers; `assertJsonValue` rejects them. The model
  follows both.

## Model

| member | source | states |
|---|---|---|
| HandleTheorems.CommitWritesEveryEdit | src/core/dialect-handle.ts:193-265 | in every run that commits, over any interleaving of the handles' turns and any delay of serialization, the file equals its handle's ops written through one after the other from its original text, if that handle chains nothing late, no query of it that passes has had its middle serialized and no batch with a directive of it was refused; nothing is asked of other handles |
| HandleTheorems.PromptCommitWritesEveryFile | src/core/dialect-handle.ts:193-265 | when nothing is chained late on any handle, a commit has written every file so |
| HandleTheorems.LandedFileIsWriteThrough | src/core/dialect-handle.ts:90-106 | the same at any moment before a discard, whatever other handles chain, query or have run into: an idle handle with nothing outstanding, rejected or refused finds its finished steps in the tree, if none of its ops ended with a stale directive |
| HandleTheorems.ReadsSeeEarlierOps | src/core/dialect-handle.ts:389-397 | every `handle.read()` of a handle answered in a run, whatever other handles do and whatever failed before or after, returned exactly the text of the ops chained before that read, unless the run was discarded or a batch with that handle's own directive had been refused |
| HandleTheorems.SilentHandleEmitsNothing | src/core/dialect-handle.ts:249-265 | in every run, failed and discarded ones included, a handle whose edits never change the print owns no directive in the whole run, and its file stays what it was |
| HandleTheorems.CleanAnswersAreIntact | src/core/dialect-handle.ts:389-394 | in every run, while nothing has failed no answer is excepted |
| HandleDrain.RejectedStepBlocksCommit | src/core/dialect-handle.ts:152-174 | in every run, once a step chained before the author's function returned has rejected, on any handle and even when the author swallowed the rejection, no later turn leads to the flush or the commit |
| HandleDrain.DrainGoesOnExactly | src/core/context.ts:41-49 | the drain lets the run go on if and only if every step below each captured tail has succeeded and no forced print has failed |
| HandleDrain.CommitMeansEveryStepSucceeded | src/core/context.ts:354-360 | in every run, whatever is chained during the drain, a run past its drain has had every step it waited for succeed |
| HandleDrain.FailureBlocksCommit | src/core/dialect-handle.ts:152-174 | when nothing is chained after the author's function returned, any failing step at all blocks the commit, and so no committed run has had a batch refused |
| HandleDrain.RunKeepsDrain | src/core/context.ts:41-49 | the drain's invariant holds in every reachable state of every run |
| HandleDrain.VerdictIsFinal | src/core/context.ts:354-380 | in every run a verdict, committed or discarded, stays: exactly one of the two |
| HandleFailures.VerdictHasItsTurn | src/core/context.ts:354-380 | a run is committed exactly when the host has answered its commit, and discarded with a reason exactly when some turn ended it with that reason: the author's function threw it, the drain found it, or the host refused the run's own flush or its commit with it |
| HandleFailures.OneTurnSettlesARun | src/core/context.ts:354-380 | no run has two turns that settle it |
| HandleFailures.PoisonedStepIsNotAttempted | src/core/dialect-handle.ts:152-174 | in every run a step begun after any failure rejects with the first failure's reason and nothing else happens: no flush, no read, no edit, no directive, no answer |
| HandleFailures.NothingBeginsAfterAFailure | src/core/dialect-handle.ts:152-174 | from the first failure on, in every continuation, a handle between two steps keeps its AST, edits and directive and gets no answer, and on any other at most the step under way ends |
| HandleFailures.QueryMustNotChangeThePrint | src/core/dialect-handle.ts:315-330 | in every run a query ends rejected if and only if the print at its end is not the print when it could make its first edit, and either way it buffers nothing |
| HandleFailures.EveryStepHasAFirstEdit | src/core/dialect-handle.ts:315-330 | every step at work has been at its first edit, so the former speaks of every query |
| HandleFailures.QueryThatWroteBlocksTheCommit | src/core/dialect-handle.ts:315-330 | when nothing is chained late, a run in which a query ends on another print never commits |
| HandleBatches.SettlingTakesTheText | src/core/dialect-handle.ts:399-406 | in every run settling takes the open directive's text there and then, and touches nothing else |
| HandleBatches.TakenTextIsFinal | src/core/dialect-handle.ts:90-106 | in every run a directive's text, once taken, never changes |
| HandleBatches.FlushTakesTheWholeBuffer | src/core/session.ts:40-80 | a read, and a handle's first op, sends the whole buffer in its order as one batch behind everything sent before |
| HandleBatches.NoBatchIsEmpty | src/core/session.ts:67-80 | in every run an empty buffer is never emitted |
| HandleProgress.NoRunIsStuck | src/core/context.ts:41-49 | until its verdict every run can take another turn that is neither the author's nor a failure |
| HandleProgress.RunsAreBounded | src/core/context.ts:41-49 | from any point of any run, without further steps from the author, only a bounded number of turns follows, in whatever order and whatever fails |
| HandleProgress.EveryRunCanEnd | src/core/context.ts:354-380 | every run can be brought to a verdict from wherever it is |
| HandleTheorems.RunErrorIsEarliestFailure | src/core/context.ts:41-49 | in every run that the drain ends while no forced print has failed, the run's error is the reason of the step that failed first, whichever handle was drained first |
| HandleTheorems.GateChanges | src/core/dialect-handle.ts:249-265 | a handle's first directive is buffered only when its edits so far print something else than the file held, whatever has failed elsewhere |
| HandleProofs.RunKeepsBase | src/core/dialect-handle.ts:152-265 | every reachable state of every run keeps the structure of queue, buffer and directives, the poison flag and the drain's invariant |
| HandleProofs.RunKeepsInv | src/core/dialect-handle.ts:152-265 | with the two premises on one handle, every reachable state has that handle's text and its answers right |
| HandleProofs.PromptRunIsFresh | src/core/dialect-handle.ts:399-406 | only a step chained late can make an op end with its directive stale |
| HandleFlush.RunKeepsEmptied | src/core/context.ts:354-360 | in every run a handle on which nothing was chained late has all its directives in front of the run's own flush and commit, and after the commit none |
| HandleProofs.WriteAllIsOverlay | src/core/session.ts:67-80 | landing a batch in array order gives each file the newest text among its own directives, and no other |
| HandleProofs.TextResolve | src/core/dialect-handle.ts:90-106 | memoizing getters, of any directives at any moment, changes no text, now or at any later landing |
| HandleProofs.OpenDecides | src/core/dialect-handle.ts:223-247 | the file's eventual text is the newest directive's text |
| HandleProofs.DropBaseline | src/core/dialect-handle.ts:249-259 | once a drained directive is forced and dropped, the baseline is the file's eventual text |
| HandleProofs.GateEventual | src/core/dialect-handle.ts:249-265 | after an op's gate the file will hold the op's print |
| HandleProofs.ReplyIsEventual | src/core/session.ts:40-43 | a read's reply is the file with everything its handle emitted |
| HandleDrain.PromptHandleIsFinished | src/core/context.ts:41-49 | in every run past its drain a handle on which nothing was chained late has finished every step |
| HandlePremises.GateKeepsEditExactly | src/core/dialect-handle.ts:249-265 | the op's print reaches the file if and only if the open directive is not stale |
| HandlePremises.MeasuringLosesTheNextEdit | src/scaffold/expander.ts:201-203 | measuring the buffer between two edits of an op loses the second one, from any state with the directive buffered |
| HandlePremises.PassingQueryLeavesItsMiddle | src/core/dialect-handle.ts:315-334 | from any state in a query's middle: if the batch is serialized there and the query then restores the print, it passes and the file keeps the middle |
| HandleProofs.PassingQueryIsExact | src/core/dialect-handle.ts:315-330 | a query that passes its check (`QueryMustNotChangeThePrint` says which do) leaves the file what the finished steps make of it if and only if no text of its middle was serialized |
| HandleWitnesses.CommittedMiddle | src/core/dialect-handle.ts:315-330 | a whole run from the start that commits the text of a passing query's middle |
| HandleWitnesses.CommittedMeasurement | src/scaffold/expander.ts:201-203 | a whole run from the start, measured between two ops, that commits without the second op |
| HandleWitnesses.LateStepEscapesTheDrain | src/core/context.ts:41-49 | a whole run that commits although a step chained during the drain, on a handle registered in time, rejected |
| HandleWitnesses.LateReadLosesAnotherHandlesEdit | src/core/context.ts:41-49 | a whole run that commits without a settled handle's op, because another handle's late read took the directive into a batch that was refused |
| HandleWitnesses.RefusedBatchShowsInTheRead | src/core/session.ts:40-43 | a whole run in which a read behind a refused batch is answered without its own handle's op |
| DialectHandle.LazyModifyDirective.Content | src/core/dialect-handle.ts:90-106 | the getter prints the live AST once and answers that text for ever after |
| DialectHandle.Session.IsPending | src/core/session.ts:36-38 | whether the directive is still buffered |
| DialectHandle.Session.Serialize | src/core/session.ts:67-80 | serializing a batch takes each directive's text once and memoizes it |
| DialectHandle.DialectHandleController.EnsureLive | src/core/dialect-handle.ts:193-207 | seeds the AST and the baseline from the first read, or fails and seeds nothing |
| DialectHandle.DialectHandleController.EnsureOpen | src/core/dialect-handle.ts:249-265 | on the objects, the orphan guard and the mutation gate take exactly the decision the state machine takes |
| DialectHandle.DialectHandleController.Settle | src/core/dialect-handle.ts:399-406 | settling forces the open directive's text |
| DialectHandle.SessionContext.GuardedStep | src/core/dialect-handle.ts:152-174 | on the object: after a failure a step does not run and rejects with the first reason; otherwise it runs, and its failure becomes the flag |
| DialectHandle.DialectRegistry.Drain | src/core/context.ts:41-49 | takes all registered handles and answers the first rejection in registration order |
| DialectHandle.DrainErrorIsFirstRejection | src/core/context.ts:45-48 | the state machine's drain error is what the registry answers |
| EngineClientProofs.AtMostOneRead | src/transport/stdio-engine-client.ts:193-210 | in every run, with any host, at most one channel read is in flight |
| EngineClientProofs.OwnResponseOnly | src/transport/stdio-engine-client.ts:151-163 | in every run, with any host, the written ids are s0, s1, s2, ... and a call resolves only with a response carrying its own id |
| EngineClientProofs.FramesAreHandedOverOnce | src/transport/stdio-engine-client.ts:212-233 | in every run, with any host, every delivered frame was consumed exactly once, in order, or is the one parked frame |
| EngineClientProofs.NoCallTakesALaterAnswer | src/transport/stdio-engine-client.ts:165-233 | with a host that answers each request once, after it was written, no call ever took a later call's response |
| EngineClientProofs.EarlyAnswerIsSwallowed | src/transport/stdio-engine-client.ts:212-233 | that premise is needed: a run in which an answer sent too early is taken by an earlier call |
| EngineClientProofs.EndedCallTakesNothing | src/transport/stdio-engine-client.ts:165-210 | a call that has ended, by its timer too, never changes again and takes no frame |
| EngineClientProofs.LiveCallGetsItsAnswer | src/transport/stdio-engine-client.ts:165-233 | with an honest host, when it has answered the waiting call, reading on resolves the call with that answer, so no abandoned call can have swallowed it |
| EngineClientProofs.WaitingCallEndsAsItShould | src/transport/stdio-engine-client.ts:165-210 | in every run, with any host, a turn ends the waiting call as timed out by its timer, with the fault of a broken read, with its own response, and otherwise not at all |
| EngineClientProofs.CallStartsWithItsRequest | src/transport/stdio-engine-client.ts:151-163 | in every run a call that starts writes its own request and nothing else, and waits, unless the one parked frame is its response |
| EngineClientProofs.DeliverArrived | src/transport/stdio-engine-client.ts:193-233 | of all loops awaiting a read, only the live one acts on its frame; abandoned ones stop without touching it |
| EngineClientProofs.RunKeeps | src/transport/stdio-engine-client.ts:124-233 | every turn of client, host and timer keeps the protocol's invariant and loses no frame, whatever the host sends |
| EngineClientProofs.HonestRunKeeps | src/transport/stdio-engine-client.ts:124-233 | with an honest host every response is taken by its own call or by a later one |
| StdioEngineClient.StdioEngineClient.ReadUntilMatch | src/transport/stdio-engine-client.ts:212-233 | the read loop does what the protocol's turn does |
| StdioEngineClient.StdioEngineClient.Send | src/transport/stdio-engine-client.ts:151-163 | writes exactly the next id |
| StdioEngineClient.StdioEngineClient.Emit | src/transport/stdio-engine-client.ts:244-264 | an over-budget batch is refused, mints no id and writes nothing; any other is sent |
| StdioEngineClient.StdioEngineClient.OnDelivery | src/transport/stdio-engine-client.ts:193-210 | a settled read resumes its awaiting loops in order |
| RequestIds.IdsDiffer | src/transport/stdio-engine-client.ts:151-157 | no two request numbers have the same id |
| FrameReader.FrameReader.Frames | src/transport/frame-reader.ts:33-91 | however a stream is cut into chunks, the reader yields the events and the ending of the whole byte string |
| FrameReader.FrameReader.DrainCompleteFrames | src/transport/frame-reader.ts:59-91 | yields every complete frame of the buffer, keeps the rest, and stops at an oversize declaration |
| Framing.DecodeFrameFirst | src/transport/frame-reader.ts:59-91 | a complete frame in front decodes the same whatever bytes follow |
| Framing.BodyNeverShiftsLaterFrames | src/transport/framing.ts:44-54 | a frame yields one event, parsed or malformed, and the later frames are unaffected |
| Framing.DecodeInvertsEncode | src/transport/framing.ts:32-50 | decoding the concatenated frames of any values gives the values back and a clean end |
| Framing.EofIffBytesLeftOver | src/transport/frame-reader.ts:40-57 | an eof fault is raised if and only if bytes are left over after the last complete frame |
| Wire.EmitRequestSize | src/core/wire.ts:85-100 | the envelope costs the same around every batch but for the id |
| Wire.AcceptedBatchFitsTheFrame | src/core/wire.ts:98-114 | an accepted batch's encoded `ir.emit` body is at most the cap for every request number up to 2^53 - 1 |
| Wire.BudgetIsExact | src/core/wire.ts:98-114 | the budget is tight: a batch is rejected if and only if its body at the longest id exceeds the cap |
| Wire.BatchGrowsBy | src/core/wire.ts:60-75 | a directive adds its own bytes and a comma unless it is the first |
| YamlAnchors.SetAnchorKeepsData | src/dialects/yaml/presentation.ts:104-114 | renaming an anchor leaves the document's data unchanged to every depth, even with redefined names and aliases inside their own targets; it is refused exactly when another node carries the name |
| YamlEffects.SetAnchorMeans | src/dialects/yaml/presentation.ts:104-113 | an accepted setAnchor gives the node its name and its aliases that name, and leaves every other node and alias as it was |
| YamlAnchors.RenameIsExact | src/dialects/yaml/presentation.ts:93-114 | every alias keeps its node if and only if none of them is captured |
| YamlAnchors.RenameKeepsTarget | src/dialects/yaml/presentation.ts:93-114 | an alias that is not captured stands for the node it stood for, re-pointed or not |
| YamlAnchors.RemoveAnchorIsExact | src/dialects/yaml/presentation.ts:116-137 | every alias that stays keeps its target, and every alias copied does if and only if no name used inside the node is redefined before one of the node's aliases |
| YamlAnchors.RemoveAnchorKeepsData | src/dialects/yaml/presentation.ts:116-137 | under exactly that condition on names, replacing every alias by an anchor-stripped copy leaves the data unchanged to every depth, including aliases nested in anchored nodes |
| YamlAnchors.UniqueAnchorsRedefineNothing | src/dialects/yaml/presentation.ts:116-137 | documents without redefined names meet the condition |
| YamlAnchors.SelfAliasIsLost | src/dialects/yaml/presentation.ts:116-137 | a document with an alias inside its own target, whose data changes |
| YamlAnchors.RemoveAnchorRemoves | src/dialects/yaml/presentation.ts:116-137 | with unique names, no node carries the name afterwards and no alias uses it |
| YamlEffects.RemoveAnchorMeans | src/dialects/yaml/presentation.ts:116-137 | the node loses its anchor and each of its aliases gives way to a copy; every other node keeps its anchor, content and place, every other alias its name |
| YamlAnchors.RedefinedNameCapturesTheCopy | src/dialects/yaml/presentation.ts:116-137 | a document with a name redefined before an alias, whose data changes |
| YamlAnchors.TargetAfterExpand | src/dialects/yaml/presentation.ts:116-137 | after the expansion an alias finds the expanded form of what its name stood for at its place |
| YamlAnchors.CopiedValue | src/dialects/yaml/presentation.ts:122-134 | every node inside a copy has the data of the node it was copied from |
| YamlReorder.AcceptedReorderKeepsTargets | src/dialects/yaml/paths.ts:213-222 | with unique anchors, a reordering the alias check accepts leaves every alias on its node |
| YamlReorder.AcceptedReorderKeepsData | src/dialects/yaml/structural.ts:177-186 | ... and the data is the original up to exactly that reordering |
| YamlReorder.ReorderKeepsDistinctIds | src/dialects/yaml/structural.ts:305-315 | reordering creates and duplicates no node |
| YamlOps.AliasCheckIsExact | src/dialects/yaml/paths.ts:213-222 | `assertAliasesResolve` accepts exactly the documents in which every alias has a preceding anchor |
| YamlOps.ReorderingEditIsSafe | src/dialects/yaml/structural.ts:177-186 | a reordering edit is accepted if and only if every alias still follows a carrier of its anchor, and then keeps targets and data |
| YamlOps.SortKeysIsSafe | src/dialects/yaml/structural.ts:305-325 | sortKeys is refused exactly when an alias would lose its anchor; otherwise the data is the original in the order that `SortKeysMeans` describes |
| YamlEffects.SortKeysMeans | src/dialects/yaml/structural.ts:305-325 | an accepted sort keeps every node; the mapping, and when recursive the mappings reached from it through entry values and sequence items, get their entries in the stable order of their labels, every other collection keeps its children in theirs |
| YamlOps.MoveItemIsSafe | src/dialects/yaml/structural.ts:177-186 | `moveItem` rejects or leaves the original data with exactly that item moved |
| YamlEffects.MoveItemMeans | src/dialects/yaml/structural.ts:177-186 | an accepted move keeps every node, puts the one item at its target with the others in their old order, and leaves every other collection's children as they were |
| Sequences.MovedMeans | src/dialects/yaml/structural.ts:177-186 | the moved item stands at its target and the others keep their relative order |
| YamlOps.SortedEntries | src/dialects/yaml/structural.ts:305-309 | a sorted mapping's entries are a permutation in label order, equal labels in their old order |
| YamlOps.YamlDocument.SetAnchor | src/dialects/yaml/presentation.ts:104-114 | on the node objects: refused with nothing changed, or exactly the tree's renaming |
| YamlOps.SettingInPlaceKeepsData | src/dialects/yaml/presentation.ts:104-114 | what the in-place edit leaves is the tag list of the renamed document, in the same cases, and that document has the same data |
| YamlOps.YamlDocument.AliasesOf | src/dialects/yaml/presentation.ts:93-102 | finds exactly the aliases that stand for the node |
| YamlOps.YamlDocument.ResolveAlias | src/dialects/yaml/paths.ts:100-102 | the scan up to an alias finds the last carrier before it |
| YamlOps.YamlDocument.AssertAliasesResolve | src/dialects/yaml/paths.ts:213-222 | one pass with the set of seen names decides whether all aliases resolve |
| YamlOps.YamlDocument.FindAnchored | src/dialects/yaml/paths.ts:224-231 | finds the last carrier of a name, or none |
| JsonEdits.RemoveAtRemoves | src/dialects/json/ops.ts:211-230 | in every layout the text stays a container whose members are the old ones without member `i` |
| JsonFormat.LinesMakeTheContainer | src/dialects/json/ops.ts:184-206 | a container in line layout is its opening part, its members' own lines in order, and its closing part |
| JsonFormat.NotLaidOut | src/dialects/json/ops.ts:189-206 | the edits take the row form exactly when there is no line layout |
| JsonFormat.RemoveAtTakesOwnLines | src/dialects/json/ops.ts:211-230 | where every member ends its own line, removing one takes exactly its own lines, comments above it included, and one comma when it was the last and had none; all other lines stay token for token |
| JsonFormat.RemoveAtInRow | src/dialects/json/ops.ts:211-230 | otherwise the stretch up to the next member goes, or from the previous one for the last; with the only member everything inside goes |
| JsonInserts.InsertAtInserts | src/dialects/json/ops.ts:238-275 | the text stays a container with the new member at `index` among the old ones |
| JsonFormat.InsertAtKeepsTheLines | src/dialects/json/ops.ts:238-252 | in line layout the new member comes on a line of its own between the others' lines, which stay token for token but for the comma the last one may need |
| JsonFormat.InsertInRowKeepsHolders | src/dialects/json/ops.ts:254-277 | in a row the old tokens stay around what is added, and every comment keeps following its member if and only if the new one is not put behind a last member that comments follow |
| JsonFormat.InsertIntoEmpty | src/dialects/json/ops.ts:257-259 | an empty container is replaced as a whole |
| JsonMoves.MoveItemMoves | src/dialects/json/ops.ts:428-437 | the moved member stands at its target, rendered anew, the others keep their order |
| JsonMoves.RemoveValueFilters | src/dialects/json/ops.ts:409-417 | exactly the members that do not match remain, in order |
| JsonSort.SortMembersSorts | src/dialects/json/ops.ts:544-599 | the text stays a container whose members are the stable sort of the old ones; separators and comments stay |
| JsonSortFormat.SortMembersMovesOwnLines | src/dialects/json/ops.ts:570-594 | in line layout each member moves with its own lines; its place gives it the comma it needs there and the line break that stood there |
| JsonSortFormat.MovedLinesKeepComments | src/dialects/json/ops.ts:573-594 | lines so moved keep all their comments, in order |
| JsonSortFormat.SortMembersInRow | src/dialects/json/ops.ts:595-599 | otherwise each member moves with the text that leads to it, the separators and the closing part stay |
| JsonSortKeys.SortedValueSorts | src/dialects/json/ops.ts:544-607 | recursive sorting sorts exactly the data, at every level |
| JsonSortKeys.SortedValueOnce | src/dialects/json/ops.ts:544-607 | sorting one level permutes the members and changes none of them |
| JsonSortKeys.SortedValueWellFormed | src/dialects/json/ops.ts:544-599 | every container at every level stays well formed |
| JsonSortKeys.SortedKeysAreOrdered | src/dialects/json/ops.ts:520-599 | keys end in code-point order, equal keys in document order, and sorting again changes no member |
| JsonSortKeys.CompareCodePoints | src/dialects/json/ops.ts:520-530 | the comparison loop computes the lexicographic order of code points; zero exactly for equal keys |
| JsonLayout.LayoutIsExact | src/dialects/json/ops.ts:189-209 | a line layout is found if and only if every member ends its own line, comma included, below the opening bracket |
| JsonSeparator.AfterComma | src/dialects/json/ops.ts:532-542 | the loop with its jumps over comments, which may leave the text or fall behind the start, returns what the search finds, or the start |
| JsonSeparator.SearchFindsTheSeparator | src/dialects/json/ops.ts:530-542 | in any text, for every stretch of blanks, comments and commas without a block comment that begins `/*/`, the search stops exactly at the first comma outside comments |
| JsonSeparator.OverlappingCommentMisleads | src/dialects/json/ops.ts:535 | behind any block comment that begins `/*/` and holds no further slash, and another comment, the search does not find the separator |
| JsonDocument.ContainerText.MeasureLines | src/dialects/json/ops.ts:189-209 | the measuring loop computes the layout |
| JsonDocument.ContainerText.RemoveMember | src/dialects/json/ops.ts:211-230 | the splices come to exactly that removal, and leave a well-formed container without the member |
| JsonDocument.ContainerText.InsertMember | src/dialects/json/ops.ts:254-275 | the splices leave the container with exactly that member inserted |
| JsonDocument.ContainerText.MoveMember | src/dialects/json/ops.ts:428-437 | remove and insert leave exactly the moved order |
| JsonDocument.ContainerText.RemoveValue | src/dialects/json/ops.ts:409-417 | removing the matches from last to first leaves exactly the others |
| JsonScanComplete.PassesExactlyTheDocuments | src/core/schema/schema-locate.ts:128-173 | the scanner passes a text if and only if it is one value of the JSON grammar |
| JsonScanSound.PassedIsDocument | src/core/schema/schema-locate.ts:40-141 | whatever passes has a derivation in the grammar |
| JsonScanComplete.DocumentIsPassed | src/core/schema/schema-locate.ts:40-141 | every derivation is passed |
| JsonScanSound.TextBeforeTheOffsetIsCompletable | src/core/schema/schema-locate.ts:40-173 | the text before a reported offset, clamped to the length, can always be completed to a document |
| JsonScanLocal.TextWithTheOffsetIsCompletableExactly | src/core/schema/schema-locate.ts:128-141 | some text completes what goes up to and with the reported character if and only if that character starts a word and, with the word spelt out there, the scan no longer stops at it |
| JsonLocate.LocateFirstJsonSyntaxError | src/core/schema/schema-locate.ts:161-173 | answers nothing if and only if the text is a document; otherwise the place of the scanner's offset |
| JsonLocate.PlaceIsUnique | src/core/schema/schema-locate.ts:143-159 | line and column determine the offset |
| JsonLocate.ScanString | src/core/schema/schema-locate.ts:40-53 | the loop equals the string scan |
| JsonLocate.ScanNumber | src/core/schema/schema-locate.ts:55-76 | the loops equal the number scan |
| JsonLocate.ScanObject | src/core/schema/schema-locate.ts:78-105 | the loop equals the object scan |
| JsonLocate.ScanArray | src/core/schema/schema-locate.ts:107-126 | the loop equals the array scan |
| JsonLocate.OffsetToLineColumn | src/core/schema/schema-locate.ts:143-159 | the counters give the place of the offset |
| Chunking.ChunkingKeepsTheOrder | src/scaffold/expander.ts:205-275 | batches and buffer concatenate to what was buffered before and the directives in pipeline order |
| Chunking.FlushesOnlyWhenFull | src/scaffold/expander.ts:262-273 | a batch is flushed only when the next directive would not have fitted |
| Scaffold.ScaffoldBatchesAreAccepted | src/scaffold/expander.ts:205-275 | every batch that holds scaffold directives only fits the emit budget, or is a lone copyIn |
| Scaffold.ByValueFits | src/scaffold/classify-transport.ts:112-172 | a by-value verdict means the very directive that is emitted fits alone |
| Scaffold.EntryEmitsExactly | src/scaffold/classify-transport.ts:112-174 | a source inside the target becomes a create with its own text exactly when that fits a batch of its own, a copy exactly when it does not and is not to be rendered, and else throws |
| Scaffold.LoweredInOrder | src/scaffold/expander.ts:194-275 | the entries before the first that throws are emitted one for one and in order |
| Scaffold.RunScaffold | src/scaffold/expander.ts:194-275 | the loop buffers and flushes exactly as the chunking does, and stops at the first failing entry |
| Scaffold.Session.Take | src/scaffold/expander.ts:262-273 | the running count and size stay those of the pending batch, and decide the flush |
| Directives.FitsIsAccepted | src/core/wire.ts:106-114 | fitting the budget is what the emit authority accepts |
| FakeEngine.RefusalLeavesThePrefix | src/testing/contract-fake.ts:47-92 | a refusal at index `i` leaves exactly the first `i` directives applied |
| FakeEngine.BatchingDoesNotMatter | src/testing/contract-fake.ts:47-92 | where directives are cut into batches changes neither the files nor which directive is refused |
| FakeEngine.AppliedMeans | src/testing/contract-fake.ts:176-278 | an applied directive leaves its content, its own or its source's, at the path it writes and nothing at the path it empties; every other path is unchanged |
| FakeEngine.RefusedMeans | src/testing/contract-fake.ts:152-278 | a directive is refused exactly when its source is missing, or it lands on a taken path unforced, a missing source first |
| FakeEngine.LoneDirective | src/testing/contract-fake.ts:84-92 | a batch of one is that directive; with `BatchingDoesNotMatter`, every batch is its directives in turn |
| FakeEngine.CommitLandsTheView | src/testing/contract-fake.ts:94-135 | the disk after a commit equals what reads saw if and only if, wherever the staging leaves it alone, earlier writes and earlier deletions have left the disk as the seed has it |
| FakeEngine.FirstCommitLandsTheView | src/testing/contract-fake.ts:94-104 | the first commit lands exactly what reads saw |
| FakeEngine.LaterCommitMissesTheView | src/testing/contract-fake.ts:94-135 | two commits after which disk and reads differ: the first deletes a seeded file |
| FakeEngine.RefusalIsAttributed | src/core/authoring-error.ts:296-317 | the author sees the offending directive's verb and source path, the reason of its code, and how many landed before it |
| FakeEngine.ContractFake.Emit | src/testing/contract-fake.ts:47-92 | a batch over the tree and the deletion set acts as its directives folded over a plain map of paths |
| FakeEngine.ContractFake.ApplyDirective | src/testing/contract-fake.ts:176-278 | one directive in place acts as the map's step, keeping staged and deleted paths disjoint |
| FakeEngine.ContractFake.Relocate | src/testing/contract-fake.ts:209-271 | rename and move end as the map without the source and with the target, also onto itself |
| FakeEngine.ContractFake.Commit | src/testing/contract-fake.ts:94-104 | promotes everything staged, applies the deletions to the committed files and to the disk, and empties the staging; the committed files stay the standing writes |
| FakeEngine.ContractFake.Discard | src/testing/contract-fake.ts:106-110 | drops the staging and leaves what was committed |
| FakeEngine.ContractFake.Read | src/testing/contract-fake.ts:122-135 | answers the view, and says whether the staging or the disk served it |
| EmitRejection.WireErrorReachesTheAuthor | src/core/authoring-error.ts:296-317 | from the host's payload to the author: a verb and path exactly when the payload blames a directive inside the batch, and then that directive's, with the reason of its code |
| OptionWalk.WalkIsExact | src/core/directive-factory.ts:94-124 | on every finite graph, shared or cyclic, the walk accepts if and only if no cycle and no unacceptable leaf or object is reachable |
| OptionWalk.Walker.AssertEncodable | src/core/directive-factory.ts:94-124 | terminates on every finite graph, decides the walk, and restores the ancestor set either way |
| OptionWalk.Walker.AssertJsonValue | src/core/json-value.ts:24-43 | the same for JSON values; the set is restored on every accepting return |
| OptionWalk.EncodeOptions | src/core/directive-factory.ts:126-136 | encodes all options in order if and only if every one of them is clean |
| Imports.TextAntisymmetric | src/dialects/typescript/import-order.ts:7-12 | the text order ties only equal texts |
| Imports.ModuleOrderIsPreorder | src/dialects/typescript/import-order.ts:19-25 | the comparator of modules is total and transitive |
| Imports.NameOrderIsPreorder | src/dialects/typescript/import-order.ts:7-12 | the comparator of names is total and transitive |
| ImportOrder.FixedStatementsStay | src/dialects/typescript/import-order.ts:94-110 | after the whole sort, side-effect imports, commented declarations and all other statements keep their position, and other statements their text; no declaration leaves its run |
| ImportOrder.EachRunIsSorted | src/dialects/typescript/import-order.ts:148-163 | after the whole sort each run holds its own declarations, braces sorted, ordered by module, ties in their old order |
| ImportOrder.NamesAreOnlyPermuted | src/dialects/typescript/import-order.ts:112-146 | a specifier list is only permuted, stably and into order; nothing else of a declaration changes |
| ImportOrder.SortImportsTwice | src/dialects/typescript/import-order.ts:148-163 | sorting is idempotent |
| ImportOrder.SortedIndexKeepsOrder | src/dialects/typescript/import-order.ts:39-51 | a name inserted at its sorted index keeps an ordered list ordered |
| ImportOrder.SourceFile.Sort | src/dialects/typescript/import-order.ts:148-163 | the in-place run by run sort computes that result |
| Sorting.StableSortSorts | src/dialects/typescript/import-order.ts:148-163 | for any total preorder the sort ends in order |
| Sorting.StableSortIsStable | src/dialects/typescript/import-order.ts:148-163 | elements the comparator ties keep their order, for every element |
| ImportOps.CallKeepsUnique | src/dialects/typescript/ops.ts:242-434 | every accepted call keeps local binding names and exported names unique |
| ImportEffects.AddingMeans | src/dialects/typescript/ops.ts:242-452 | an accepted adding call finds what it asks for and changes nothing, or adds exactly that binding; every other binding keeps its module, name and kind |
| ImportEffects.RemovingMeans | src/dialects/typescript/ops.ts:568-585 | a removal takes one listed binding of that name and module when there is one, and nothing else |
| ImportEffects.ReExportingMeans | src/dialects/typescript/ops.ts:655-691 | an accepted re-export is there already or is the one export added |
| ImportEffects.UnexportingMeans | src/dialects/typescript/ops.ts:693-710 | a removal takes one listed export of that name and module when there is one, and nothing else |
| ImportOps.RunKeepsUnique | src/dialects/typescript/ops.ts:242-690 | over any sequence of calls, accepted or rejected, names stay unique and a rejected call changes nothing |
| ImportOps.RepeatedCallIsNoOp | src/dialects/typescript/ops.ts:107-117 | repeating an accepted adding call is accepted and changes nothing |
| TypeScriptFile.SourceFile.IsBindingClaimed | src/dialects/typescript/ops.ts:292-297 | whether any import binds the name or a local value has it |
| TypeScriptFile.SourceFile.AddImport | src/dialects/typescript/ops.ts:242-288 | in place: rejected with nothing changed, or exactly the call's result |
| TypeScriptFile.SourceFile.AddDefaultImport | src/dialects/typescript/ops.ts:358-384 | in place: rejected with nothing changed, or exactly the call's result |
| TypeScriptFile.SourceFile.AddNamespaceImport | src/dialects/typescript/ops.ts:386-414 | in place: rejected with nothing changed, or exactly the call's result |
| TypeScriptFile.SourceFile.AddTypeImport | src/dialects/typescript/ops.ts:416-438 | in place: rejected with nothing changed, or exactly the call's result |
| TypeScriptFile.SourceFile.AddReExport | src/dialects/typescript/ops.ts:655-676 | in place: rejected with nothing changed, or exactly the call's result |
| RunnerClosure.DeriveRunnerClosure | scripts/derive-runner-closure.ts:131-218 | terminates on any finite import graph and returns exactly the reachable files with exactly their edges, builtins and violations |
| RunnerClosure.EverySpecifierIsRecorded | scripts/derive-runner-closure.ts:160-210 | every static specifier of every node is recorded as exactly one of a builtin, an edge with its one target and a violation with its one rule |
| RunnerClosure.NoViolationsMeansClosed | scripts/derive-runner-closure.ts:131-218 | zero violations mean the nodes can be read and import only builtins and each other |
| RunnerClosure.EdgesAreFiles | scripts/derive-runner-closure.ts:280-336 | an edge leads to an existing file inside the root, exactly for such relative specifiers |
| FolderWalk.WalkFolder | src/scaffold/walk.ts:164-255 | terminates on any finite tree and fails on the bound if and only if more entries are enumerated than it allows; otherwise returns every entry, in any order, once |
| FolderWalk.EntriesAreListed | src/scaffold/walk.ts:187-255 | the entries are exactly what real directories lead to, nothing beneath a symlinked directory |
| FolderWalk.EntriesAreDistinct | src/scaffold/walk.ts:187-255 | no entry is listed twice |
| FolderWalk.WalkListsEachOnce | src/scaffold/walk.ts:164-255 | seen from outside: every path through real directories to something that is no directory, exactly once |

## Left out

- Parsing and printing of TypeScript, JSON, YAML and CSS, `JSON.parse`, `JSON.stringify` of option values and POSIX path functions are parameters; prints are total, and a print or a parse that throws is a turn of its own that rejects the step.
- Handle verbs other than ops, queries and reads (`replaceContent`, `rename`, `move`, `copy`, `remove`) and two handles on one path: the code makes no merge promise there.
- HandleTheorems.CommitWritesEveryEdit: one handle per path; on that handle no step chained during the drain and no passing query whose middle was serialized, and no refused batch with its directive: `HandleWitnesses` holds a committed run that breaks each of the three.
- HandleTheorems.ReadsSeeEarlierOps: not the answers after a discard, when the engine has dropped what was staged, nor those of a handle whose own batch was refused, where it is false.
- HandleTheorems.RunErrorIsEarliestFailure: with a print that fails while settling, the registry's order decides (`DrainErrorIsFirstRejection`).
- DialectHandle: the promise chain itself is the turn order of `HandleMachine`; `AsyncLocalStorage` and the WeakMap of AST paths are not part of this model.
- StdioEngineClient: the awaits of the read loop are separate events (`OnDelivery`, `OnTimeout`); the promise queue that serializes calls is the rule that a call starts when none is waiting; timers are events, not clocks.
- FrameReader.FrameReader.Frames: takes the chunks as a sequence and returns the events at the end; that they are yielded as they complete is not stated.
- Wire: JavaScript's lone surrogates have no Dafny character; `JsonLocate` works on code units, where they do.
- YamlAnchors.SetAnchorKeepsData: for documents whose aliases all resolve, as the parser delivers them; `RenameIsExact` covers the others.
- YamlAnchors.RemoveAnchorKeepsData: no alias lies inside its own target, where it is refuted by example; with one, later copies are taken of the node already changed, which is not modelled. Stated on trees as values: the replacement of nodes in place is not modelled.
- YamlOps.ReorderingEditIsSafe: anchors are unique and aliases resolve. Stated on trees as values: the in-place sort and splice of a node's item list are not modelled.
- YAML path resolution, `writeSlot`, `setAlias`, `addMergeKey`, merge keys, comments, styles and tags.
- JSON edits that go through the library's `modify`, locating a path, and a member's own text: a member is one token, an inserted or moved value arrives rendered.
- JsonEdits.RemoveAtRemoves: no block comment crosses a line break.
- JsonSeparator.SearchFindsTheSeparator: not the block comments that begin `/*/`, where it is false (`OverlappingCommentMisleads`); such a comment with more slashes can still be passed over rightly, and which ones are is not stated. The edits on tokens take the separator as found.
- Scaffold.ScaffoldBatchesAreAccepted: a lone copyIn may exceed the budget by its paths; nothing in the source measures it.
- Filename pipeline, token translation and path hygiene: their verdicts are part of an entry.
- FakeEngine: the bytes a `copyIn` brings are not part of the view, as in the source.
- ImportOps: where a fresh declaration goes (`sortedPlacement`, directives, gap text) is any place; quote and semicolon style are not modelled.
- ImportOps.RunKeepsUnique: covers the import and re-export calls, not `addFunction`, `addVariable` and `addClass`.
- TypeScriptFile: `addSideEffectImport`, `addExportAll`, `removeImport` and `removeExport` have their function form only, in `ImportOps`. `removeExportAll` is not part of this model.
- RunnerClosure.DeriveRunnerClosure: returns sets; the order in which the output is sorted is left out, and the violations of constructs other than static specifiers are a parameter.
- FolderWalk.WalkFolder: the file system does not change during the walk; paths are sequences of segments, and the final sort of the result is left out.
- React, Angular, NestJS and CSS ops, dialect composition, codegen, project discovery, schema validation, release scripts and message texts: library lookups, wording or input and output.
