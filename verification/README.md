# Discord Ferry: durable progress and repair, verified

A Dafny model of the parts of Discord Ferry that keep a migration safe across crashes, retries and
repairs, and of a few algorithms beside them that have an exact specification. `dafny verify
dfyconfig.toml` checks the whole project.

## What is modelled

- **Delivery receipts and the checkpoint** (`Delivery`, `Checkpoint`, `MigrationStore`,
  `CheckpointRuns`, `AtomicIo`). A receipt file is written before a message is sent, consumed in
  memory, committed by `save_state` and only then unlinked. `MigrationStore` has the state and the
  output folder as classes whose methods update them step by step and record every durable state;
  `Checkpoint` gives the same calls as functions, and `CheckpointRuns` lets writes, saves,
  replacements, crashes at any durable state and reloads follow each other in any order. A crash may
  strike after any durable state of a save; `AtomicIo` shows why one document write is one such step.
- **Saved forms** (`SavedJson`, `ReceiptCodec`, `StateCodec`). What `dataclasses.asdict` and
  `_state_to_dict` write, and what the decoders accept, over parsed JSON values.
- **Role ranks** (`Sorting`, `RoleRank`). Known roles are reordered inside the slots they occupy
  together; roles of other origin keep their ranks or the plan is refused.
- **Repair of categories** (`RepairCategories`), **retry of failed messages** (`RetryQueue`) and
  **rollback** (`Rollback`): loops that update shared lists and counters, with the work in any
  order, callees that append to the list being walked, concurrent tasks, failed saves and crashes.
- **Phases** (`Phases`). Which phase is recorded before, during and after a run, and what a resume
  skips.
- **Index sources** (`IndexSources`) and the **bounded export decision** (`ExportDecision`).
- **Streaming metadata** (`BoundedJson`). The event loop over a JSON document against the projection
  of its tree, including repeated member names (section 4 of RFC 8259).
- **Browser fallback** (`BrowserFallback`). The lock-protected blocks as atomic steps of any number
  of threads, an event loop and a readiness task.
- **Feedback** (`Utf8`, `Truncation`, `Drafts`). UTF-8 as in section 3 of RFC 3629, cutting text to
  a byte limit, and the draft with its request id and acknowledgements.
- **ULIDs** (`Crockford`). Base 32 decoding and the timestamp of an id.

SHA-256 is an injective function and `uuid4` gives a value not used before. I/O outcomes, what a
remote call answered, what a callee did and the moments of cancellation are parameters.

## Where the code differs from what it says

- `load_bounded_json_metadata` keeps the direct scalars of `guild` and `channel`. When such an object
  repeats a member name and the last value is an array or an object, the stream still holds the
  earlier scalar, unlike the parsed document (`BoundedJson.ShadowedScalarLeaks`). The two agree
  exactly when no scalar is shadowed in this way (`BoundedJson.StreamIsProjection`).
- The rollback preview leaves out recorded roles the server no longer lists, while the role loop still
  attempts them (`Rollback.RoleDeletedByHand`); preview and action, which the code keeps in agreement for
  channels (`Rollback.AttemptedAsShown`), agree for roles exactly when the server lists every role not
  rolled back before, but for roles whose id the run deleted as a channel
  (`Rollback.RolePreviewAgreesExactly`).
- A phase that ends with a `CancelledError` while the cancel flag is not set returns normally, so the
  report is reached and saved although the phase is not finished (`Phases.InterruptedReachesReport`). A
  run ends in order exactly when this does not happen, unless the phase and all later ones were dealt
  with before (`Phases.RunInOrderExactly`).
- Editing the contact address keeps the public acknowledgement although the rendered body names the
  request id and whether a contact exists (`Drafts.ContactKeepsAcknowledgement`). The body is the
  acknowledged one exactly when the address was not edited to another value
  (`Drafts.AcknowledgedBodyExactly`).

Two more hold of the functions as written and are reached by no caller today:

- `_keep_end` with a limit of zero slices from `-0` and keeps the whole text
  (`Truncation.KeepEndBreaksZero`, `Truncation.KeepEndAtZero`). Its two callers pass 12000.
- A saved failure whose delivery reference is about another message is written and then makes the state
  file impossible to load (`StateCodec.MismatchedFailureBlocksLoading`,
  `StateCodec.MismatchedFailureExists`). `messages.py` only builds failures whose reference is about the
  message.

## Model

| member | source | states |
|---|---|---|
| `AtomicIo.ReplaceWithRetry` | src/discord_ferry/core/atomicio.py:46-67 | Off Windows the first swap decides; on Windows only a denial is tried again, five swaps in all, coming after 0, 1, 3, 7 and 15 units of 0.05 s; true exactly when the last swap succeeded. |
| `AtomicIo.BackoffBound` | src/discord_ferry/core/atomicio.py:46-67 | All delays together are at most fifteen times the first. |
| `AtomicIo.AtomicWriteText` | src/discord_ferry/core/atomicio.py:70-104 | At every moment of a write the target is wholly old or wholly new and no other file differs; the result says which, and a failure leaves no temporary file unless removing it fails too. |
| `MigrationStore.WriteDeliveryReceipt` | src/discord_ferry/state.py:601-617 | A receipt is written exactly when it is well formed, belongs to this migration and the write succeeds; the token names its id and the digest of what is on disk. |
| `MigrationStore.ReadDeliveryReceipt` | src/discord_ferry/state.py:620-641 | Returns exactly the receipt on disk of this reference and migration, None exactly when there is no file, and refuses anything else. |
| `MigrationStore.ConsumeDelivery` | src/discord_ferry/state.py:656-663 | Records the marker and the consumed digest, exactly for a well-formed message id. |
| `MigrationStore.ConsumedDeliveries` | src/discord_ferry/state.py:673-700 | Lists, once each, exactly the finished deliveries: file with the consumed contents, a receipt of this delivery and binding with every part acknowledged, marker of its first part. Fails exactly when a file cannot be read or holds the consumed contents and is no such receipt. |
| `MigrationStore.RetireDelivery` | src/discord_ferry/state.py:709-732 | One retirement: the pending replacement is cleared, the file goes only with the consumed bytes, its marker only with the file. |
| `MigrationStore.RetireConsumedDeliveries` | src/discord_ferry/state.py:709-740 | The loop passes through the durable states of the retirements in order and ends by dropping markers of absent files. |
| `MigrationStore.DropAbsentMarkers` | src/discord_ferry/state.py:733-740 | Exactly the markers whose file is absent and could be looked up are dropped, with their cleanup permission. |
| `MigrationStore.SaveState` | src/discord_ferry/state.py:743-773 | One save ends in the memory and passes through the durable states that `Save` prescribes: message map, then state, then unlinks; what that comes to is stated by `Checkpoint.SaveExactly` and `Checkpoint.SaveReturnsExactly`. |
| `MigrationStore.EnsureDeliveryNamespace` | src/discord_ferry/state.py:475-491 | Binds once, saves the binding before it is used, undoes it when the save fails, refuses another service. |
| `MigrationStore.BeginDeliveryReplacement` | src/discord_ferry/core/engine.py:3394-3409 | Returns the pending generation, or mints one, saves it retiring exactly what that save may retire, and withdraws it from memory when the save fails. |
| `MigrationStore.LoadState` | src/discord_ferry/state.py:776-820 | What is loaded is the durable document with the message map beside it and no cleanup permissions. |
| `Checkpoint.RetireAllClearsPending` | src/discord_ferry/state.py:703-732 | After retirement the pending replacements are those minus the retired generations, whatever unlinks failed; both documents stay as saved. |
| `Checkpoint.RetireDisksSafe` | src/discord_ferry/state.py:709-732 | Each durable state of a retirement loses only a receipt committed by the state file before it. |
| `Checkpoint.ListedAreBacked` | src/discord_ferry/state.py:673-700 | Every listed retirement is complete, consumed by this digest, and its marker is in the document about to be saved. |
| `Checkpoint.SaveRemovesOnlyCommitted` | src/discord_ferry/state.py:743-773 | At every crash point of a save a receipt is gone only when the durable state file holds the marker of its first part, all parts were acknowledged and its bytes were the consumed ones. |
| `Checkpoint.SaveAgreesWithDisk` | src/discord_ferry/state.py:743-773 | When a save returns, pending replacements, binding and owners in memory are the durable ones and every marker left has a receipt file or one that could not be inspected. |
| `Checkpoint.ClearAllExact` | src/discord_ferry/state.py:703-706 | A pending replacement is cleared exactly when a receipt of its generation is retired, and is never changed. |
| `Checkpoint.SaveReturnsExactly` | src/discord_ferry/state.py:743-773 | A save returns exactly when there is a binding or nothing to bind, no consumed file is refused and both documents can be written; otherwise memory is unchanged and the disk has at most the new message map. |
| `Checkpoint.SaveExactly` | src/discord_ferry/state.py:673-773 | After a save that returned, exactly the finished deliveries that can be unlinked have lost marker and permission, other markers only where the file is absent; a pending replacement is gone exactly when a delivery of its generation is finished; all else is as before and the documents are these. |
| `Checkpoint.SaveFilesExactly` | src/discord_ferry/state.py:709-732 | The receipt files that are gone are exactly those of finished deliveries of this binding that can be unlinked; all others are unaltered. |
| `Checkpoint.SaveThenLoad` | src/discord_ferry/state.py:743-820 | Whatever durable state a save leaves behind once its state document is written, loading it restores the saved maps, owners and binding and no permission to clean up. |
| `Checkpoint.CutBetweenDocuments` | src/discord_ferry/state.py:760-820 | Cut short before, it leaves the old state document with the new message map, which load together. |
| `Checkpoint.BindOnce` | src/discord_ferry/state.py:475-491 | A bound folder accepts its own service only and nothing changes; an unbound one takes the binding exactly when nothing is recorded yet and both documents can be written, and otherwise memory is as before. |
| `CheckpointRuns.CallIsSave` | src/discord_ferry/core/engine.py:3394-3409 | Binding a namespace and beginning a replacement go through one save of the changed memory, undone in memory when it fails. |
| `CheckpointRuns.SavePrefix` | src/discord_ferry/state.py:743-773 | A crash after any number of durable states leaves each document wholly old or wholly new, in writing order, and no receipt altered. |
| `CheckpointRuns.CallKeepsInvariant` | src/discord_ferry/state.py:743-773 | Every saving call, completed or cut short, keeps memory and disk in agreement, generations known and the documents in order. |
| `CheckpointRuns.RunKeepsInvariant` | src/discord_ferry/state.py:656-773 | So does every run of writes, consumption, saves, crashes and reloads. |
| `CheckpointRuns.NoAcknowledgedDeliveryLost` | src/discord_ferry/state.py:656-773 | After any run, over any steps that do not write the receipt, at every durable state: it is there with the same contents, or a state in between held exactly these contents fully acknowledged beside a state file with its marker, and its owner's progress is in the present state file. |
| `CheckpointRuns.NoReceiptVanishes` | src/discord_ferry/state.py:656-773 | Also where a receipt is rewritten, its file is still there or was committed, and its owner's progress is in the present state file. |
| `CheckpointRuns.RetirementIsEarned` | src/discord_ferry/state.py:673-700 | A generation is retired only with a receipt of it on disk that is complete, consumed by its digest and marked. |
| `CheckpointRuns.PendingChangesOnlyByRetirement` | src/discord_ferry/state.py:703-717 | A step removes a durable pending generation exactly when it commits its retirement, and never changes it. |
| `CheckpointRuns.GenerationPersists` | src/discord_ferry/state.py:703-717 | Over any run a pending generation stays the same until a receipt of it is retired. |
| `CheckpointRuns.ReturnedIsDurable` | src/discord_ferry/core/engine.py:3394-3409 | A returned generation is of the requested delivery and already in the durable state file; it was minted exactly when none was pending. |
| `CheckpointRuns.SameGenerationUntilRetired` | src/discord_ferry/core/engine.py:3394-3409 | Across any crashes and reloads two calls for one delivery return the same generation unless a receipt of it was retired in between. |
| `CheckpointRuns.MessageMapNeverOlder` | src/discord_ferry/state.py:743-773 | At every crash point of every run each document is one save's, and the message map is from the same save as the state file or a later one. |
| `ReceiptCodec.RefRoundTrip` | src/discord_ferry/state.py:403-423 | Decoding an encoded reference gives it back exactly when it is well formed. |
| `ReceiptCodec.PartsRoundTrip` | src/discord_ferry/state.py:514-561 | The same for the list of parts, with positions, distinct keys, acknowledgements and media ids. |
| `ReceiptCodec.ReceiptRoundTrip` | src/discord_ferry/state.py:494-562 | Decoding an encoded receipt gives it back exactly when it is well formed, and refuses it otherwise. |
| `ReceiptCodec.DecodedPartsAreWellFormed` | src/discord_ferry/state.py:514-561 | Whatever the file holds, accepted parts are well formed, all of them and in order. |
| `ReceiptCodec.DecodedIsStable` | src/discord_ferry/state.py:494-562 | An accepted receipt is well formed, and writing and reading it again changes nothing. |
| `StateCodec.FailedRoundTrip` | src/discord_ferry/state.py:644-653 | An encoded failed message decodes to itself exactly when its reference is well formed and about that message and channel. |
| `StateCodec.PinsRoundTrip` | src/discord_ferry/state.py:1158-1158 | Pairs written as lists come back as pairs. |
| `StateCodec.RollbackRoundTrip` | src/discord_ferry/state.py:1114-1134 | The rollback record comes back with its set, in whatever order the set was written. |
| `StateCodec.LoadAfterSave` | src/discord_ferry/state.py:939-1210 | A saved state is refused exactly when an id in one of its maps, pins, reactions, rewrites or failures, or a failure's reference, is not valid, with placeholders allowed in a dry run, and otherwise loads as itself, the mapped roles taken as finalized where a completed run recorded none. |
| `StateCodec.RoundTripExactly` | src/discord_ferry/state.py:939-1210 | Saving both files and loading them is the identity exactly for valid ids and references without the seed. |
| `StateCodec.LoadsExactlyRealIds` | src/discord_ferry/state.py:939-1040 | Outside a dry run a saved state loads exactly when every Stoat id in its maps, pins, reactions, roles and failures is a ULID, every file and category id a token, every Discord id a number, and every failure reference its own. |
| `StateCodec.SavedAndLoadedDeliveries` | src/discord_ferry/state.py:426-472 | A state is saved exactly when its delivery records are hexadecimal ids with message ids or generations, bound unless empty; no other is ever loaded. |
| `StateCodec.MismatchedFailureBlocksLoading` | src/discord_ferry/state.py:644-653 | A state with a failure whose reference is about another message saves but does not load. |
| `StateCodec.MismatchedFailureExists` | src/discord_ferry/state.py:644-653 | Such a state, with nothing else in it, exists. |
| `Sorting.SortPermutes` | src/discord_ferry/core/engine.py:1774-1780 | Sorting keeps the elements with their multiplicity. |
| `Sorting.SortSorts` | src/discord_ferry/core/engine.py:1774-1780 | Under a total order the result is sorted. |
| `RoleRank.SlotsMatchDesired` | src/discord_ferry/core/engine.py:1797-1801 | There are as many slots as desired tokens, so the strict pairing cannot fail. |
| `RoleRank.FillSlots` | src/discord_ferry/core/engine.py:1799-1802 | Each slot holds its desired token and every other position is unchanged. |
| `RoleRank.RewriteSlots` | src/discord_ferry/core/engine.py:1796-1802 | Tokens outside the desired ones keep their positions, the desired ones stand in their slots in the desired order. |
| `RoleRank.RewriteIsUnique` | src/discord_ferry/core/engine.py:1796-1802 | No other sequence meets that description. |
| `RoleRank.RewritePermutes` | src/discord_ferry/core/engine.py:1796-1802 | The result is a permutation of the current order. |
| `RoleRank.RewriteIsFixedPoint` | src/discord_ferry/core/engine.py:1796-1802 | Rewriting the result again gives the result. |
| `RoleRank.DesiredIsRanked` | src/discord_ferry/core/engine.py:1774-1797 | After the checks the desired tokens are distinct and all ranked, for every way the roles are chosen. |
| `RoleRank.CheckNatives` | src/discord_ferry/core/engine.py:1803-1808 | Passes exactly when no native token would change its rank. |
| `RoleRank.Reorder` | src/discord_ferry/core/engine.py:1795-1809 | Accepts exactly when nothing changes or no native role moves; the ranks are then those of the one rewrite, distinct, ascending along the desired order, with native ranks unchanged. |
| `RoleRank.PlanRanks` | src/discord_ferry/core/engine.py:1749-1809 | Accepts, after the checks, exactly when the reordering changes nothing or every role no kept mapping stands for is at the index of its observed rank; so always when there is no such role. On success each of these keeps its observed rank and the processed roles come out in order. |
| `RoleRank.PreflightExactly` | src/discord_ferry/core/engine.py:1749-1793 | The checks pass exactly when every source role is listed once at its position, the mapping is one to one into the server's roles but for the recreated ones, all other roles are processed and fit the limit, and ranks are known and differ. |
| `RoleRank.ChangedAreTheHighest` | src/discord_ferry/core/engine.py:1774-1776 | A change processes as many roles as the limit allows, each above every role left out. |
| `RoleRank.ProcessedExactly` | src/discord_ferry/core/engine.py:1777-1780 | Otherwise all roles are processed for an ordering, and else exactly the recreated ones. |
| `RoleRank.RanksExactly` | src/discord_ferry/core/engine.py:1790-1793 | The ranks are the observed ones and, for exactly the roles without a kept mapping, new ones right after the number of roles observed. |
| `RoleRank.CreatedInOrder` | src/discord_ferry/core/engine.py:1782-1791 | Of two roles to be created the one processed first ranks first. |
| `RoleRank.ProcessedComeOutSorted` | src/discord_ferry/core/engine.py:1797-1809 | Of two processed roles the one with the higher position, or the smaller id, ends in front. |
| `RepairCategories.Repair.ReattachToCategory` | src/discord_ferry/core/engine.py:3833-3902 | Puts a recreated channel into its live recorded category and removes its dead id there, in place. |
| `RepairCategories.Repair.RecreateCategory` | src/discord_ferry/core/engine.py:3905-3971 | Replaces a missing category by one rebuilt from the records, in place, exactly when its title is recorded: under its mapped id, or else the generated one, with the recorded channels in record order. |
| `RepairCategories.Repair.RepairStructure` | src/discord_ferry/core/engine.py:4814-4912 | The loop over the work ends in the composition of its steps. |
| `RepairCategories.PutBackMembers` | src/discord_ferry/core/engine.py:3875-3889 | A channel put back is listed once, its dead id not at all, the others as before. |
| `RepairCategories.PutBackKeepsOrder` | src/discord_ferry/core/engine.py:3875-3889 | The others keep their order and a new id goes to the end. |
| `RepairCategories.RepairMatches` | src/discord_ferry/core/engine.py:4814-4912 | For every processing order repair ends in what its work, as a set, prescribes for every category and id. |
| `RepairCategories.OrderDoesNotMatter` | src/discord_ferry/core/engine.py:4814-4912 | Two processing orders of the same work end with the same id maps and the same categories, each with the same title and members. |
| `RepairCategories.RecreatedChannelIsHome` | src/discord_ferry/core/engine.py:3833-3889 | Each recreated channel is listed exactly once under its new id in its recorded category, and its old id is gone from it. |
| `RepairCategories.OldIdGone` | src/discord_ferry/core/engine.py:4814-4912 | No channel stays mapped to the old id of a recreated one. |
| `RepairCategories.OtherCategoriesPreserved` | src/discord_ferry/core/engine.py:3905-3956 | A live category into which no channel was recreated keeps its title and members. |
| `RepairCategories.RecreatedCategoryIsComplete` | src/discord_ferry/core/engine.py:3905-3956 | A missing category with a recorded title is live again with its recorded channels. |
| `RetryQueue.DeadLetters.RunRetryFailed` | src/discord_ferry/core/engine.py:2780-2929 | Walks a snapshot, so it ends although the live queue grows. It completes exactly when no dispatched attempt is a permission stop, and then counts the sources an attempt resolved; at the first stop the live queue is the old one with what was appended so far. |
| `RetryQueue.BumpedKeepsSource` | src/discord_ferry/core/engine.py:2890-2914 | A record carried over after a repeated failure names the same source. |
| `RetryQueue.CarriedCountsAttempts` | src/discord_ferry/core/engine.py:2902-2914 | A carried record that was attempted without success is the same message and channel with one more attempt, and error, preview and reference of the newest record appended for it, or else the error of the attempt; any other carried record is unchanged. |
| `RetryQueue.LatestIsNewest` | src/discord_ferry/core/engine.py:2890-2901 | That newest record is the last one appended with this message and channel, and there is none exactly when none was appended. |
| `RetryQueue.DispatchExactly` | src/discord_ferry/core/engine.py:2613-2642 | A failure is dispatched as a delivery exactly when its channel is a mapped one and it has this one reading: an export message found for it that goes to its channel as ordinary or merged and is what its reference names. |
| `RetryQueue.RetryFollowsAttempts` | src/discord_ferry/core/engine.py:2780-2929 | From the attempts alone: a source is resolved exactly when an attempt that was reached resolved it, the count is the number of these, the log is that of the dispatches, carried are the others, each in order, and the queue has grown by what was appended; all up to the first permission stop. |
| `RetryQueue.KeptExactly` | src/discord_ferry/core/engine.py:2915-2928 | A record is dropped exactly when its unique logical source was resolved in this run. |
| `RetryQueue.RetryConserves` | src/discord_ferry/core/engine.py:2780-2929 | What is left are old records in their old order and nothing new, attempted ones with one more attempt and the others unchanged; a record is gone exactly when an attempt resolved its unique source, and the success count is the number of such sources. |
| `RetryQueue.NoResolvedSourceIsSentAgain` | src/discord_ferry/core/engine.py:2842-2889 | Whether or not a permission stop ends the run, no delivery that an attempt resolved is dispatched after it, and the old records stay in the live queue. |
| `Rollback.RollbackRun.SettleOne` | src/discord_ferry/core/engine.py:5292-5324 | A deletion counts its kind and adds its id, a refusal adds one failure with the entity, id and error; nothing else changes. |
| `Rollback.RollbackRun.BuildChannelTasks` | src/discord_ferry/core/engine.py:5621-5667 | The task list names exactly the recorded channels on the server, and the unrecorded suspects the user opted in, that are not rolled back, each id once; the channels not listed are reported. |
| `Rollback.RollbackRun.DeleteSerially` | src/discord_ferry/core/engine.py:5672-5686 | Without a cancellation exactly the ids not rolled back are attempted; up to where it is noticed, the ids rolled back grow by those whose call was answered with a deletion. |
| `Rollback.SeriallyCounts` | src/discord_ferry/core/engine.py:5672-5686 | The counter of the kind, and no other, grows by the number of ids it rolled back. |
| `Rollback.SeriallyReports` | src/discord_ferry/core/engine.py:5672-5686 | Every refused call is on the failure list, and no earlier failure is lost. |
| `Rollback.BuildRollbackSummary` | src/discord_ferry/review.py:255-292 | The preview lists recorded channels and roles on the server and all emoji, unless rolled back, in record order. |
| `Rollback.ChannelPreviewIsAttempted` | src/discord_ferry/core/engine.py:5625-5650 | A channel is in the preview exactly when it has a task. |
| `Rollback.SerialAttempted` | src/discord_ferry/core/engine.py:5672-5686 | When a run ends without a cancellation or failed save, the roles and emoji attempted are the recorded ones not rolled back when their turn came, each rolled back or on the failure list. |
| `Rollback.RolePreviewAgreesExactly` | src/discord_ferry/review.py:279-285 | In such a run the roles shown are those attempted exactly when each role not rolled back before is on the server, or its id was deleted as a channel and is not. |
| `Rollback.RolePreviewOfDistinctIds` | src/discord_ferry/review.py:279-285 | Where no role shares an id with a channel to delete: exactly when the server lists every role not rolled back before. |
| `Rollback.EmojiPreviewAgreesExactly` | src/discord_ferry/review.py:287-292 | The emoji shown are those attempted exactly when the run deleted none of their ids before. |
| `Rollback.RoleDeletedByHand` | src/discord_ferry/core/engine.py:5672-5678 | A run with a recorded role that the server does not list shows nothing and sends its deletion. |
| `Rollback.CountersAgree` | src/discord_ferry/state.py:91-107 | When each counter counts its recorded deletions, the four together are the number of rolled back ids. |
| `Rollback.StepKeepsInvariant` | src/discord_ferry/core/engine.py:5274-5324 | Every step of every task, cancellation and crash keeps the books, the open work and the bound on calls in flight. |
| `Rollback.EveryRunBalances` | src/discord_ferry/core/engine.py:5274-5401 | Over any runs, interleavings, failures, cancellations and crashes the counters in memory and on disk equal the number of rolled back ids, no id is recorded twice, and calls in flight stay within the bound. |
| `Rollback.AttemptedAsShown` | src/discord_ferry/core/engine.py:5621-5670 | When the channel part ends uncancelled, the recorded channels attempted are those of the preview, the others are the unrecorded suspects opted in, each rolled back or on the failure list. |
| `Rollback.OnlyTargetsAreSent` | src/discord_ferry/core/engine.py:5621-5686 | Over any run, whatever fails, is cancelled or crashes, every id sent is a recorded channel on the server, a recorded role or emoji, or an unrecorded suspect opted in, and was not rolled back when the run began. |
| `Rollback.UnsavedDeletionComesBack` | src/discord_ferry/core/engine.py:5292-5324 | A deletion that was answered but not saved before a crash has its task again in the next run, with the counters that were saved. |
| `Rollback.CancelledRunIsQuiet` | src/discord_ferry/core/engine.py:5274-5288 | After a cancellation the run sends nothing more. |
| `Rollback.DurableIsNeverSentAgain` | src/discord_ferry/core/engine.py:5274-5401 | A durably recorded deletion stays recorded and no later run sends it again. |
| `Phases.Migration.RunPhases` | src/discord_ferry/core/engine.py:1380-1480 | The loop over the phases ends in the recorded phase, the durable one and the ending that its turns prescribe; what these come to is stated by `Phases.RunStartsExactly`. |
| `Phases.Migration.RunMigration` | src/discord_ferry/core/engine.py:1189-1333 | After the loop the report, or the validation that follows it, is recorded and saved unless the run raised, died or sees the cancel flag; then all is as the loop left it. |
| `Phases.ExecuteKeepsOrder` | src/discord_ferry/core/engine.py:1443-1480 | A phase starts only after its predecessors, and starting, finishing, failing or dying in it keeps the recorded phase in order. |
| `Phases.TurnKeepsOrder` | src/discord_ferry/core/engine.py:1389-1480 | Every turn, skipped or not, keeps the recorded phase in order in memory and on disk. |
| `Phases.LoopEndsAt` | src/discord_ferry/core/engine.py:1389-1480 | The loop ends at the first phase that is cancelled or starts without completing, which decides how, from the phase recorded at the start of the run. |
| `Phases.RunStartsExactly` | src/discord_ferry/core/engine.py:1380-1480 | A run starts, in order, exactly the phases that are implemented, not configured away and not before the recorded phase of a resume, up to the first that meets the cancel flag or does not complete; it finishes those that complete, notes those left out, and that phase decides the ending. |
| `Phases.ResumeSkipsFinished` | src/discord_ferry/core/engine.py:1403-1426 | A resumed run starts no phase before the recorded one, and does not depend on what these would have come to. |
| `Phases.RunSaves` | src/discord_ferry/core/engine.py:1443-1480 | A resumed run cut short alive has all its memory on disk; one that died the finished phases; one that went through these and the recorded phase, unless it finished nothing. |
| `Phases.EveryRunIsInOrder` | src/discord_ferry/core/engine.py:1380-1480 | Over any starts, resumes, failures, cancellations and crashes with changing configurations, every runnable phase before the durable one was finished or skipped. |
| `Phases.RunInOrderExactly` | src/discord_ferry/core/engine.py:1389-1480 | A run, fresh or resumed, ends in order exactly when no phase that its turn starts is interrupted with the cancel flag unset, unless that phase and all later ones were dealt with before. |
| `Phases.FreshRunInOrderExactly` | src/discord_ferry/core/engine.py:1453-1462 | A fresh run ends in order exactly when none is interrupted so, whatever was on disk. |
| `Phases.InterruptedReachesReport` | src/discord_ferry/core/engine.py:1222-1227 | An interruption of the first phase with the flag unset still ends in a saved report. |
| `IndexSources.SelectSources` | src/discord_ferry/core/engine.py:2107-2127 | Accepts exactly when every export has an id, one group and no other saved forum category; groups and selection are then those of the exports. |
| `IndexSources.OpenSavedGroups` | src/discord_ferry/core/engine.py:2128-2134 | Groups of saved index channels and saved forum names are opened empty, others unchanged. |
| `IndexSources.AddSavedMembers` | src/discord_ferry/core/engine.py:2135-2153 | Accepts exactly when every saved membership agrees with channels, categories and selection, and adds exactly its members. |
| `IndexSources.CategoriesAgree` | src/discord_ferry/core/engine.py:2154-2158 | Passes exactly when every saved forum category is backed by a saved member with a channel. |
| `IndexSources.PermissionIndexSources` | src/discord_ferry/core/engine.py:2086-2170 | Accepts exactly the consistent inputs, and the answer holds exactly the groups wanted with exactly their members. |
| `IndexSources.MemberPinsGroup` | src/discord_ferry/core/engine.py:2107-2158 | A member of a group has that group in every export of it and in its saved forum category. |
| `IndexSources.AcceptedGroupsPartition` | src/discord_ferry/core/engine.py:2086-2170 | Accepted groups are non-empty, pairwise disjoint and named with the forum prefix, hold exactly the posts of forums (types 15 and 16) in the exports and the saved members, each under its own group, and agree with the saved categories. |
| `IndexSources.AcceptedMembersAreSound` | src/discord_ferry/core/engine.py:2107-2153 | Every member has a Discord id; a saved one also its channel and category, and is listed once. |
| `ExportDecision.RenderParses` | src/discord_ferry/exporter/inventory.py:62-64 | A rendered number is decimal and parses back to itself. |
| `ExportDecision.FailedIds` | src/discord_ferry/core/engine.py:470-479 | Nothing exactly when one failure has no source, otherwise each source with its failed ids in order. |
| `ExportDecision.CoversExactly` | src/discord_ferry/exporter/inventory.py:60-61 | A bound covers everything still needed exactly when it is not above any marker or any failure minus one. |
| `ExportDecision.BoundedExactly` | src/discord_ferry/exporter/inventory.py:39-64 | An export is bounded exactly when the inventory and the previous export are complete, some sources are listed and none twice, every source and its mark are positive numbers, and every failure has a listed source and a positive number. |
| `ExportDecision.BoundedCovers` | src/discord_ferry/exporter/inventory.py:39-64 | A bounded export needs complete evidence, covers every message above its source's mark and every saved failure, and no larger bound does. |
| `ExportDecision.SavedFailuresAreCovered` | src/discord_ferry/core/engine.py:470-479 | One failure without a source forces a full export; a bounded one fetches every saved failure again. |
| `BoundedJson.LoadMetadata` | src/discord_ferry/core/boundedjson.py:50-120 | The event loop computes the run of its transitions over the events, refusing excess depth and documents that are not objects. |
| `BoundedJson.CollectAgreesExactly` | src/discord_ferry/core/boundedjson.py:94-111 | Streaming one kept object agrees with parsing it exactly when no scalar is shadowed by a later array or object of the same name. |
| `BoundedJson.StreamTopLastWins` | src/discord_ferry/core/boundedjson.py:83-111 | The last top-level binding of each kept name decides its value, and other names leave nothing. |
| `BoundedJson.TopMembers` | src/discord_ferry/core/boundedjson.py:64-120 | Over any members the event loop leaves exactly what streaming them prescribes; nested values do not leak. |
| `BoundedJson.StreamIsProjection` | src/discord_ferry/core/boundedjson.py:50-120 | Within the depth limit the result is the projection of the parsed document exactly when neither kept object shadows a scalar. |
| `BoundedJson.ProjectionExactly` | src/discord_ferry/core/boundedjson.py:50-63 | The projection keeps exactly guild, channel, messages, messageCount and exportedAt: the scalar members of the first two, an empty list, two scalars, and None for a value of another kind. |
| `BoundedJson.RefusedExactly` | src/discord_ferry/core/boundedjson.py:71-120 | A document is refused for depth exactly when it nests deeper than the limit, and accepted exactly when it is then an object. |
| `BoundedJson.BrokenDocumentIsRefused` | src/discord_ferry/core/boundedjson.py:64-120 | A document that breaks off anywhere is never accepted, and refused for depth only if the whole is too deep. |
| `BoundedJson.DistinctNamesProject` | src/discord_ferry/core/boundedjson.py:50-120 | Without repeated names in the kept objects the result is the projection. |
| `BoundedJson.ShadowedScalarLeaks` | src/discord_ferry/core/boundedjson.py:94-111 | A repeated name whose last value is an array leaves its earlier scalar in the result. |
| `BrowserFallback.Fallback.MarkRequested` | src/discord_ferry/gui_native.py:131-141 | Refused when stopping or claimed, otherwise records the request and tells whether it is the first. |
| `BrowserFallback.Fallback.DecideSchedule` | src/discord_ferry/gui_native.py:143-148 | A task is to be created exactly for a wanted request on a captured loop without task or stop. |
| `BrowserFallback.Fallback.CreateReadinessTask` | src/discord_ferry/gui_native.py:150-156 | Creates a task exactly when there is none and no stop. |
| `BrowserFallback.Fallback.MarkStopping` | src/discord_ferry/gui_native.py:123-129 | Sets the stop flag and tells whether there is a task to cancel. |
| `BrowserFallback.Fallback.OpenIfRunning` | src/discord_ferry/gui_native.py:189-211 | Claims and counts one dispatch exactly when not stopping, claimed or shutting down. |
| `BrowserFallback.StepKeepsWakeup` | src/discord_ferry/gui_native.py:143-156 | No step loses a wakeup that is due. |
| `BrowserFallback.EveryInterleavingIsSafe` | src/discord_ferry/gui_native.py:114-211 | In every interleaving at most one dispatch, one task and one True answer; a dispatch only after a request and a reachable server, none begun after stop returned; no due wakeup lost. |
| `BrowserFallback.WakeupReachesTask` | src/discord_ferry/gui_native.py:143-156 | A due wakeup is at most three enabled steps away from its task. |
| `BrowserFallback.AnswerReachesBrowser` | src/discord_ferry/gui_native.py:158-211 | A polling task that is answered makes the one dispatch in two enabled steps when nothing shuts down, and none when the application is exiting. |
| `BrowserFallback.OneRequestAnswersTrue` | src/discord_ferry/gui_native.py:131-141 | Once requested, exactly one thread returned or will return True, before that none. |
| `BrowserFallback.StoppedStaysQuiet` | src/discord_ferry/gui_native.py:123-129 | After the stop flag is set no step dispatches, creates a task or accepts a request. |
| `Utf8.FirstCharExactly` | src/discord_ferry/feedback.py:488-491 | A character is decoded at the front exactly when its encoding stands there: shortest form only, no surrogates. |
| `Utf8.RoundTrip` | src/discord_ferry/feedback.py:488-491 | Decoding gives back every encoded text. |
| `Utf8.PrefixDecodes` | src/discord_ferry/feedback.py:491-491 | A byte prefix cut anywhere decodes to the longest text prefix that fits it. |
| `Utf8.SuffixDecodes` | src/discord_ferry/feedback.py:502-502 | A byte suffix cut anywhere decodes to the longest text suffix that fits it. |
| `Truncation.KeepStartKeeps` | src/discord_ferry/feedback.py:485-493 | The kept start is a prefix within the limit, the text itself when that fits, and otherwise cut from the longest prefix that fits, between words, losing one word at most. |
| `Truncation.LongestPrefixIsUnique` | src/discord_ferry/feedback.py:491-491 | There is one longest prefix that fits, so what the start is cut from is determined. |
| `Truncation.LongestSuffixIsUnique` | src/discord_ferry/feedback.py:502-502 | There is one longest suffix that fits. |
| `Truncation.KeepEndKeeps` | src/discord_ferry/feedback.py:496-507 | The kept end is a suffix, the text itself when that fits, within any positive limit, and otherwise starts a line of the longest suffix that fits. |
| `Truncation.KeepEndAtZero` | src/discord_ferry/feedback.py:496-507 | With a zero limit the result is within it exactly when nothing follows the first line break or, without one, the first blank. |
| `Truncation.KeepEndBreaksZero` | src/discord_ferry/feedback.py:502-502 | For a concrete text a zero limit is not kept. |
| `Truncation.CleanedIsNeverTooLong` | src/discord_ferry/feedback.py:480-532 | Cleaned version, error and log are never refused for their length, whatever the text. |
| `Truncation.LineEndsAreReplaced` | src/discord_ferry/feedback.py:215-215 | Line ends come out as by replacing each carriage return with line feed, and then each carriage return, by a line feed. |
| `Truncation.VerdictExactly` | src/discord_ferry/feedback.py:210-231 | Refused first for a control character, then for too few bytes, for white space only and for too many bytes, each exactly then, and otherwise accepted as replaced. |
| `Truncation.AcceptedIsWithinLimits` | src/discord_ferry/feedback.py:210-231 | Accepted text is within both limits, has no carriage return, and is accepted again unchanged. |
| `Drafts.FeedbackDraft.EditKind` | src/discord_ferry/feedback.py:962-965 | Sets the kind, withdraws the acknowledgement, and takes a new id exactly for another kind. |
| `Drafts.FeedbackDraft.EditDescription` | src/discord_ferry/feedback.py:967-971 | The same for an accepted description; a refused one changes nothing. |
| `Drafts.FeedbackDraft.EditExpected` | src/discord_ferry/feedback.py:973-977 | The same for the expected result, which may be absent. |
| `Drafts.FeedbackDraft.EditReproduction` | src/discord_ferry/feedback.py:979-983 | The same for the reproduction steps. |
| `Drafts.FeedbackDraft.EditDiagnostics` | src/discord_ferry/feedback.py:985-989 | Sets the diagnostics and withdraws both acknowledgements. |
| `Drafts.FeedbackDraft.EditContactEmail` | src/discord_ferry/feedback.py:991-994 | Sets an address exactly when it is absent or at most 254 visible ASCII characters with one @ that is neither first nor last, takes a new id for another one, and keeps the acknowledgements. |
| `Drafts.FeedbackDraft.SetPrivateNames` | src/discord_ferry/feedback.py:996-999 | Sets the private names and withdraws the public acknowledgement. |
| `Drafts.FeedbackDraft.GiveDiagnosticsAcknowledgement` | src/discord_ferry/feedback.py:953-956 | Possible exactly when there are diagnostics. |
| `Drafts.IdFollowsContent` | src/discord_ferry/feedback.py:958-999 | One edit keeps the request id exactly when it keeps the content. |
| `Drafts.SameIdSameContent` | src/discord_ferry/feedback.py:944-999 | Over any edits two moments share the id exactly when nothing was changed in between, and then have the same kind, texts, diagnostics, contact and private names. |
| `Drafts.AcknowledgedExactly` | src/discord_ferry/feedback.py:944-999 | The public acknowledgement is set exactly when it was given and no public field was edited since, and kind, texts, diagnostics and private names are then those it was given for. |
| `Drafts.DiagnosticsAcknowledged` | src/discord_ferry/feedback.py:953-989 | Acknowledged diagnostics exist and are the ones acknowledged. |
| `Drafts.AcknowledgedBodyExactly` | src/discord_ferry/feedback.py:991-1036 | The rendered body is the acknowledged one exactly when the contact address was not edited to another value since. |
| `Drafts.ContactKeepsAcknowledgement` | src/discord_ferry/feedback.py:991-994 | Adding an address changes the body and keeps the acknowledgement. |
| `Crockford.ValueIsIndex` | src/discord_ferry/review.py:128-136 | Every letter of the alphabet has its index as value in either case, and only the aliases I, L and O have one besides. |
| `Crockford.DecodeBase32` | src/discord_ferry/review.py:139-150 | The loop computes the base 32 number of the values, and fails exactly when a character has none. |
| `Crockford.DecodeBound` | src/discord_ferry/review.py:139-150 | A decoded number is below 32 to the length. |
| `Crockford.AliasesDoNotMatter` | src/discord_ferry/review.py:133-150 | A string decodes exactly as its upper-case spelling with 1 for I and L and 0 for O, which is canonical whenever it decodes. |
| `Crockford.OrderIsNumeric` | src/discord_ferry/review.py:139-150 | On canonical strings of one length string order is numeric order. |
| `Crockford.DecodeIsInjective` | src/discord_ferry/review.py:139-150 | Different canonical strings of one length decode differently. |
| `Crockford.EncodeRoundTrip` | src/discord_ferry/review.py:139-150 | Every number below the bound is decoded from its canonical string of that length. |
| `Crockford.EncodeAfterDecode` | src/discord_ferry/review.py:139-150 | Every canonical string is the one of its number. |
| `Crockford.TimestampExactly` | src/discord_ferry/review.py:153-167 | A timestamp is read exactly from 26 characters whose first ten decode before the calendar's end, and is the number these stand for; those ten stay below 2 to the 50. |
| `Crockford.IdsSortByTime` | src/discord_ferry/review.py:153-167 | Among canonical ids an earlier id has no later timestamp. |

## Left out

- HTTP calls, uploads, exports by subprocess, native windows, all user interface, reports and statistics: foreign effects, present only as steps that succeed, fail or crash.
- `deliver_part`, `_process_message`, `_merge_threads` and the permission compiler: not modelled; what the loops need of them is stated as an assumption.
- For receipts, callers record their own progress before they consume a delivery; this is the enabling condition of the `Consume` step in `CheckpointRuns`.
- RetryQueue.RetryConserves: assumes that a failure the callee appends for the message it was given carries that delivery's reference or none (`HonestCallee`); which records are carried and their order do not need it.
- RepairCategories.RepairMatches: assumes distinct category ids on the server and no channel repeated in a live list, channel and category maps that give no id twice, new ids for recreated channels, and missing categories that are recorded and not live (`Sound`); the remote call that fails and ends the whole repair is not a step.
- Phases.EveryRunIsInOrder: assumes of each run that a cancel flag its loop saw is still set at the end, and that an interruption with the flag unset is harmless in the sense of `Phases.RunInOrderExactly`. A failure of the report or the validation themselves, and of a save, only leaves an earlier recorded phase on disk and is not a step of its own.
- Symbolic links, permission modes, output directories outside the root and the migration of a receipt namespace: platform behaviour of `state.py` and `atomicio.py`.
- Redaction of secrets, path removal and the regular expressions of the diagnostic cleaner: taken as done before the text is cut. Private names are a field of the draft, their substitution is not modelled.
- JSON text, the tokenizer and the byte limits of the loaders: documents are event sequences or parsed values. A number other than an integer is kept as one opaque value.
- StateCodec.LoadAfterSave: is about states without a staged input witness, whose own check is not modelled, nor are the version 1 migration, the redaction of free text and the cleanup permissions a binding may be needed for. Containers that the loader takes without a check (`completed_channel_ids` and the like) hold text here.
- ReceiptCodec.ReceiptRoundTrip: the text form of the receipts of `Delivery`, which abstract from attempts, media ids and associations because the checkpoint never reads them.
- The order of Python dictionaries is kept where a list is built from one and dropped where only the set of entries matters (consumed deliveries, saved memberships).
- RoleRank.PlanRanks: the check that the role evidence is the bound one, and the permission updates computed after the ranks, are not modelled.
- Rollback of categories, the confirmation gate, locks and the warnings of every loop: easy or user interface. The recorded entity maps are values the rollback never holds, so it cannot change them.
- `ExportDecision`: the reason text of a full export and Python's limit on the length of integer literals.
- `Crockford`: the rendering of a timestamp as ISO text; the platform's clock range is the calendar of `datetime`.
- `FeedbackDraft`: unsupported types, surrogates, which a Dafny character cannot be, and sending or saving a draft; `solve_challenge` is a search with an easy specification.
- `BrowserFallback`: the polling of the server and the browser itself; a task that is cancelled after its last check still opens at most once, as the steps allow.
