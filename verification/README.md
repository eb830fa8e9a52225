# Verification of redoor

This project models the parts of redoor whose guarantees are hardest to see in the code, and
proves them: a tar printer and parser pair, an asynchronous request batcher, the upload queue with
the planning in front of it, stream folds and decoders, and protocols that must survive failures,
interruptions and races. `dafny verify dfyconfig.toml` checks everything.

Code that changes things step by step is modelled by methods and classes over the same loops and
fields; each is proved to compute a specification function, and the properties are lemmas about
those functions and about whole runs of them. Concurrent code is a state machine over its steps, so
that a lemma about every run covers every interleaving.

## What is modelled

* **Tar** (`TarFormat`, `TarStream`, `TarExtract`, `TarRoundTrip`). Octal and base-256 header fields
  and the checksum; the tree walk with its explicit stack; the block reader with its long-name
  carry; and the theorem that extracting a streamed tree gives the tree back, together with the exact
  condition (the long-name limit) under which it does. Names and contents are sequences of octets.
  `stream` prints names without the source's own name and `extract` expects it, so the round trip
  prefixes the root component.
* **Worktree status batcher** (`PathWaiters`, `WorktreeBatcher`, `WorktreeBatcherClasses`). Loads,
  timer, responses, failures and aborts in any order: exactly-once settlement, no lost wake-up, one
  request at a time, order of retries and a bound on the rounds needed.
* **Upload queue** (`UploadPaths`, `UploadScheduler`, `UploadPump`, `UploadRuns`, `UploadProgress`,
  `UploadQueue`). Batches,
  claims, shared directory requests, the unload warning and the settle callback, as a state machine
  and as the class it is. Promises are the events that the queue's own chaining allows next.
* **Upload planning** (`FileNames`, `DestinationPlan`, `UploadPlan`, `UploadDialog`). From any picks,
  drops, pastes and removals over names and conflicts to the queue's batch. The last theorem crosses
  all of it.
* **Search and diffs** (`SearchFold`, `GitDiffBatches`), **NDJSON** (`Ndjson`), **remote commands**
  (`ExecWire`, `ExecServer`, `ExecPipeline`).
* **Races and interruption**: device id (`DeviceId`), the command line copy (`CopyTransfer`), the
  agent's connection (`Connection`), settings writes (`SettingsWrites`).
* **Ordered containers**: device order (`DeviceOrder`), view state (`HistoryEntries`), shortcuts
  (`Shortcuts`), output tail and retry waits (`Retries`).

## Where the code does not do what one would expect

Each of these is a lemma with the exact condition or a concrete input.

* Names are trimmed after the suggestion and after a conflict was found. A row that replaces or
  merges lands on the item it asked about if and only if the name has no space at its ends
  (`LandsOnExisting`); otherwise it can replace an item the user was not asked about
  (`SpacedNameReplacesAnother`), and a suggested name can clash after all (`SpacedDefaultClashes`).
  Items that share a suffix need no choices in any directory if and only if every name is plain and
  without such spaces (`PlansNeedNoUserExactlyIf`); the row of an item with another suffix can hide
  such a name (`OtherSuffixHidesTheSpace`).
* A typed name may contain a backslash, which the queue turns into a slash. The queue keeps a planned
  path if and only if the final name has none (`QueueKeepsPath`, `BackslashLeavesThePlan`).
* Inside an encrypted directory a file can land on the path of a directory: exactly if the vault
  suffix turns the one name into the other (`FileMeetsDirectory`). For every pair of usable names there
  is such a source, and its plan has no error (`EncryptedFileMeetsDirectory`).
* What a stream yields before it fails depends on the chunks (`BadLineDependsOnChunks`): it is
  determined by the text if and only if all lines parse or the first one does not
  (`YieldsDependOnTextExactlyIf`).
* On file systems with neither no-replace renames nor hard links two agents can return different
  ids (`PlainRenamesCanDisagree`): all runs agree if and only if the file system has one of the two or
  there was an id file from the start (`AllRunsAgreeExactlyIf`).
* A server-side copy that was admitted but whose reply was lost fails, is not cancelled, goes on
  running and is not reported as a failed cleanup; if the interruption came while the reply was still
  awaited the cleanup is reported as failed (the last two clauses of `Transfer.Run`).
* Output that was read from a command but still waited to be sent when a deadline or a cancel came is
  lost (`PendingReadIsLost`). From a cancel request on the server also discards what the agent still
  sends (`CanceledOutputIsLost`), even if the command exits before the cancel reaches it: it then ends
  with its status and without its last output (`ExitAfterCancelIsIncomplete`). Any part of the output
  can be what arrives (`AnyPartCanBePrinted`). A pipe is printed completely if and only if no read of
  it was waiting at the end and none of its events was discarded; a command that exits guarantees that
  only if nobody asked to cancel it (`OutputIsComplete`).
* An error event longer than 64 KiB is refused by the caller as a record that is too long
  (`ExecutionIsFaithful`).

## Model

| member | source | states |
|---|---|---|
| TarFormat.OctalRoundTrip | crates/redoor-cli/src/archive.rs:38-52 | A number that fits an octal header field is read back as itself |
| TarFormat.SizeRoundTrip | crates/redoor-cli/src/archive.rs:38-56 | Every size below 2^64 is read back as itself, in octal up to 8^11 - 1 and in the base-256 form above |
| TarFormat.SealMatches | crates/redoor-cli/src/archive.rs:38-56 | A header sealed with its checksum passes the reader's checksum test, whatever its other fields hold |
| TarFormat.SealedHeaderDescribes | crates/redoor-cli/src/archive.rs:38-56 | Name, mode, size and type flag of a sealed header are read back as written |
| TarFormat.SingleByteCorruptionDetected | crates/redoor-cli/src/archive.rs:118-128 | Changing any one byte of a matching header outside the checksum field breaks the match |
| TarStream.Stream | crates/redoor-cli/src/archive.rs:19-76 | The walk with its explicit stack succeeds exactly on archivable trees, emits exactly the members of the tree depth first with each directory before what is in it, ends with two zero blocks, and counts every file's bytes once |
| TarStream.Deliver | crates/redoor-cli/src/archive.rs:33-70 | One entry is emitted as its long-name record if needed, its header, its content and the padding to a whole block |
| TarStream.CopyContent | crates/redoor-cli/src/archive.rs:57-70 | The content loop emits exactly the announced number of bytes or fails |
| TarStream.DeliveryEmits | crates/redoor-cli/src/archive.rs:25-70 | What one delivery emits, followed by what the new stack still holds, is what the old stack held |
| TarExtract.RelativeMember | crates/redoor-cli/src/archive.rs:79-96 | The component loop accepts exactly the paths under the root component with plain components below it |
| TarExtract.RelativeIsConfined | crates/redoor-cli/src/archive.rs:79-96 | An accepted member path has only plain components, so it cannot leave the staging directory |
| TarExtract.Extract | crates/redoor-cli/src/archive.rs:100-189 | The extraction loop, with its block buffer and long-name carry, ends as the specification of the whole archive says, for every division of the input into reads |
| TarExtract.ReadExact | crates/redoor-cli/src/archive.rs:100-117 | Exactly the next bytes are delivered whatever pieces the transport gives, or the input was too short |
| TarExtract.ReadHeader | crates/redoor-cli/src/archive.rs:104-150 | One header with its long name, member or error is handled as one turn of the specification |
| TarExtract.ReadMember | crates/redoor-cli/src/archive.rs:134-180 | One member creates one directory or one finished file below the staging directory, or fails; a file whose bytes are too few or whose mode does not parse stays behind unfinished |
| TarExtract.ExtractionConfined | crates/redoor-cli/src/archive.rs:100-189 | Every archive, accepted or refused anywhere, leaves a staging directory that is confined if it was before and still holds everything it held |
| TarExtract.TrailingBytesIgnored | crates/redoor-cli/src/archive.rs:181-189 | Bytes behind the end marker change nothing but what is drained |
| TarExtract.TruncationRejected | crates/redoor-cli/src/archive.rs:100-189 | An accepted archive cut anywhere before the end of its end marker is refused |
| TarRoundTrip.RelativeOfJoin | crates/redoor-cli/src/archive.rs:79-96 | A path printed under the root component is read back as the same components |
| TarRoundTrip.LongPaddingAgrees | crates/redoor-cli/src/archive.rs:43-48 | The padding written behind a long name is the padding the reader skips |
| TarRoundTrip.HeadTurns | crates/redoor-cli/src/archive.rs:38-56 | A member's head, short or long named, is read back as one turn on its own name, mode, size and type |
| TarRoundTrip.FileMemberRun | crates/redoor-cli/src/archive.rs:57-70 | Reading one emitted file member creates exactly that file, with its bytes and its mode modulo 512 |
| TarRoundTrip.DirectoryMemberRun | crates/redoor-cli/src/archive.rs:33-43 | Reading one emitted directory member creates exactly that directory |
| TarRoundTrip.MembersRun | crates/redoor-cli/src/archive.rs:19-76 | Reading the members of a tree behind any state that has room for them rebuilds the tree, and refuses exactly the trees with a name too long for a record |
| TarRoundTrip.RebuildHolds | crates/redoor-cli/src/archive.rs:134-180 | Rebuilding creates each entry of the tree once and touches nothing else |
| TarRoundTrip.RebuildMirrors | crates/redoor-cli/src/archive.rs:134-180 | What is rebuilt in an empty staging directory mirrors the tree path by path |
| TarRoundTrip.RoundTrip | crates/redoor-cli/src/archive.rs:19-189 | Extracting a streamed tree gives back exactly its directories, file bytes and modes, counts its content bytes and drains what follows, if and only if every long name fits 64 KiB; otherwise it fails with the long-name error and what it staged is confined |
| TarRoundTrip.ArchiveFramed | crates/redoor-cli/src/archive.rs:43-71 | Every member is a whole number of 512-byte blocks |
| WorktreeBatcher.StepKeeps | ui/src/worktree-status-batcher.ts:69-175 | Every load, timer, response, failure and abort keeps the invariant: waiters are conserved, rows proper, at most one of timer and request is active, and queued rows have one of them |
| WorktreeBatcher.RunKeeps | ui/src/worktree-status-batcher.ts:69-175 | The invariant holds after every run from an idle batcher |
| WorktreeBatcher.SettledExactlyOnce | ui/src/worktree-status-batcher.ts:69-175 | In every run a loaded waiter is settled once or still waits in exactly one place, never both and never twice |
| WorktreeBatcher.RowGetsItsVerdict | ui/src/worktree-status-batcher.ts:118-140 | A row is settled with the verdict the response gives for its own path, and stays when there is none |
| WorktreeBatcher.LeftPaths | ui/src/worktree-status-batcher.ts:118-157 | What a response leaves is exactly what it did not answer, in the order asked |
| WorktreeBatcher.UnansweredGoFirst | ui/src/worktree-status-batcher.ts:141-157 | After a partial response a timer is scheduled and the next request asks for the unanswered paths before the newer ones |
| WorktreeBatcher.RoundsProgress | ui/src/worktree-status-batcher.ts:104-157 | Each round whose response answers at least one requested path leaves at least one row less to do |
| WorktreeBatcher.AllSettledWithin | ui/src/worktree-status-batcher.ts:104-157 | After as many such rounds as rows are pending, every loaded waiter is settled |
| WorktreeBatcherClasses.PathWaiters.Add | ui/src/worktree-status-batcher.ts:193-201 | Adding puts the waiter behind the others of its path, or opens a new row at the end |
| WorktreeBatcherClasses.PathWaiters.Append | ui/src/worktree-status-batcher.ts:204-210 | Appending moves every waiter of the other rows behind the own ones |
| WorktreeBatcherClasses.PathWaiters.Remove | ui/src/worktree-status-batcher.ts:213-227 | Removing takes one waiter out and drops a row that becomes empty |
| WorktreeBatcherClasses.PathWaiters.Take | ui/src/worktree-status-batcher.ts:230-239 | Taking hands out and removes a whole row |
| WorktreeBatcherClasses.WorktreeStatusBatcher.Load | ui/src/worktree-status-batcher.ts:69-88 | The method on the batcher's fields is the specification's load step |
| WorktreeBatcherClasses.WorktreeStatusBatcher.TimerFired | ui/src/worktree-status-batcher.ts:91-118 | The timer's callback sends all queued rows as one request unless one is in flight, as the specification's step |
| WorktreeBatcherClasses.WorktreeStatusBatcher.Responded | ui/src/worktree-status-batcher.ts:118-157 | Handing out a response in place, row by row, is the specification's step |
| WorktreeBatcherClasses.WorktreeStatusBatcher.RequestFailed | ui/src/worktree-status-batcher.ts:145-157 | A failed request rejects every row in flight and schedules what is queued |
| WorktreeBatcherClasses.WorktreeStatusBatcher.Abandon | ui/src/worktree-status-batcher.ts:160-175 | An abort removes the waiter wherever it is and cancels a request nobody waits for |
| UploadPaths.NormalizedIsContained | ui/src/upload-queue.ts:100-118 | An accepted upload path has only plain components and no backslash, and accepting it again changes nothing |
| UploadPaths.ContainedIsNormal | ui/src/upload-queue.ts:100-118 | A contained path is accepted unchanged |
| UploadPump.ClaimShape | ui/src/upload-queue.ts:302-320 | Claiming takes exactly the first waiting rows, in queue order, and changes nothing but their status |
| UploadPump.PumpKeeps | ui/src/upload-queue.ts:302-350 | Pumping fills the free slots, leaves no directory waiting and keeps the invariant |
| UploadRuns.EnqueueKeeps | ui/src/upload-queue.ts:183-246 | A batch is admitted exactly if it is not empty, fits 100 rows and has valid paths only; a refused batch changes nothing but the id counter |
| UploadRuns.NewItemsAreFresh | ui/src/upload-queue.ts:209-217 | One waiting row per file with consecutive new ids, exactly if every path is valid |
| UploadRuns.FinishItemKeeps | ui/src/upload-queue.ts:421-434 | The end of an upload keeps the invariant and settles exactly if it ended the last pending work |
| UploadRuns.FinishDirectoryKeeps | ui/src/upload-queue.ts:437-450 | The end of a directory does the same |
| UploadRuns.StepKeeps | ui/src/upload-queue.ts:183-462 | Every event keeps the invariant: at most 5 uploading and 100 rows, 5 uploading while a file waits, no directory waiting, one request per agent and directory and batch, warning attached exactly while work is pending |
| UploadRuns.EveryRunKeeps | ui/src/upload-queue.ts:142-462 | The invariant holds after every run, and onSettled was called exactly once per transition from pending to not pending |
| UploadRuns.RowsMoveForward | ui/src/upload-queue.ts:302-462 | While work is pending no row leaves, and each event moves a row at most one place along waiting, uploading, done |
| UploadRuns.SendFollowsParent | ui/src/upload-queue.ts:371-398 | The request whose success allows a send is the one for the sending row's own parent directory |
| UploadRuns.NeverStuck | ui/src/upload-queue.ts:302-462 | Pending work always has a next event |
| UploadProgress.EventShrinks | ui/src/upload-queue.ts:302-462 | Every event other than a new batch leaves strictly less to do |
| UploadProgress.QueueDrains | ui/src/upload-queue.ts:302-462 | Without new batches no run is longer than what there is to do, and a run that long ends with nothing pending |
| UploadQueues.StartingClaims | ui/src/upload-queue.ts:302-340 | Changing the rows whose ids were collected changes exactly the claimed rows |
| UploadQueues.UploadQueue.Enqueue | ui/src/upload-queue.ts:183-246 | The method on the queue's fields is the specification's batch step, with its answer |
| UploadQueues.UploadQueue.MakeItems | ui/src/upload-queue.ts:209-217 | The loop that takes ids and normalizes paths makes the specified rows or stops at the first invalid path |
| UploadQueues.UploadQueue.UniqueDirectories | ui/src/upload-queue.ts:219-231 | Each normalized directory once, in the order of its first occurrence, or none if one is invalid |
| UploadQueues.UploadQueue.Update | ui/src/upload-queue.ts:269-295 | Publishing rows attaches or detaches the unload warning so that it is attached exactly while work is pending |
| UploadQueues.UploadQueue.Pump | ui/src/upload-queue.ts:302-350 | Claiming by id set and starting in two loops is the specification's pump |
| UploadQueues.UploadQueue.PrepareDirectory | ui/src/upload-queue.ts:401-418 | One shared request per agent and directory |
| UploadQueues.UploadQueue.FinishItem | ui/src/upload-queue.ts:421-462 | The method is the specification's end of an upload |
| UploadQueues.UploadQueue.FinishDirectory | ui/src/upload-queue.ts:437-462 | The method is the specification's end of a directory |
| FileNames.TrimIs | ui/src/destination-plan.ts:185-186 | Trimming leaves a name alone exactly when neither end is a space, and gives such a name |
| FileNames.CandidateInjective | ui/src/utils/file-name.ts:22-39 | Variants with different counters are different names |
| FileNames.SuggestAvailableFileName | ui/src/utils/file-name.ts:22-39 | The counting loop ends for every set of taken names, with the first variant from 2 on that is free |
| FileNames.VariantValid | ui/src/utils/file-name.ts:22-39 | A variant of a valid name without spaces at its ends is such a name |
| DestinationPlan.Validate | ui/src/utils/path.ts:51-77 | A single component is accepted exactly if it is not empty, not a dot component and without a slash |
| DestinationPlan.SuggestName | ui/src/destination-plan.ts:103-124 | The suggestion is the own name if that is free with its suffix, otherwise the first free variant, and is free with its suffix |
| DestinationPlan.SuggestionIsFree | ui/src/destination-plan.ts:103-124 | A variant that avoids the suffix-stripped names is still free once the suffix is appended |
| DestinationPlan.PlanItem | ui/src/destination-plan.ts:148-217 | One row's conflict, resolution, value, final name, policy and error, given the names used before |
| DestinationPlan.PlanDestinationNames | ui/src/destination-plan.ts:133-218 | The loop that adds each final name to the used ones gives the specified plan |
| DestinationPlan.ErrorFreePlansAreSafe | ui/src/destination-plan.ts:133-218 | Without errors final names are pairwise distinct; a taken name belongs to a chosen override or merge or to an item at its own destination; every other row has the refusing policy; merging needs an existing directory |
| DestinationPlan.LandsOnExisting | ui/src/destination-plan.ts:148-188 | A row that replaces or merges lands on the item it asked about if and only if its name has no space at its ends |
| DestinationPlan.SpacedNameReplacesAnother | ui/src/destination-plan.ts:148-217 | Counterexample for every name with a space in front: an error-free plan replaces an item the user was not asked about |
| DestinationPlan.DefaultPlansNeedNoUser | ui/src/destination-plan.ts:133-218 | Without choices every plan of items with plain, space-trimmed names is free of errors, for all destinations and suffixes |
| DestinationPlan.RowNeedsNoUserExactlyIf | ui/src/destination-plan.ts:148-217 | A row without choices is free of errors whatever is taken and used if and only if its name is plain, without spaces at its ends, and it is not at its own destination |
| DestinationPlan.PlansNeedNoUserExactlyIf | ui/src/destination-plan.ts:133-218 | A plan of items with one suffix needs no choices in any directory if and only if all names are plain and without spaces at their ends |
| DestinationPlan.SpacedDefaultClashes | ui/src/destination-plan.ts:175-205 | Counterexample for a name with a space: a suggestion is trimmed onto a taken name |
| DestinationPlan.OtherSuffixHidesTheSpace | ui/src/destination-plan.ts:133-218 | Counterexample for items with different suffixes: the row of another item makes a plan with a spaced name free of errors in every directory |
| DestinationPlan.ResolveAllApplies | ui/src/destination-plan.ts:224-259 | Planning again after one choice for all finds the same conflicts and gives each that choice, replacing what cannot be merged; the shared choice then is the one chosen, after merging only if all conflicts can merge, replacing if none can, and none for a mixture |
| UploadPlan.CreateUploadItems | ui/src/upload-plan.ts:89-137 | The two loops over a map in insertion order give one item per top-level name, in order of first appearance, with fresh keys, or refuse the source for an invalid path |
| UploadPlan.DraftsHoldTheSource | ui/src/upload-plan.ts:89-142 | Grouping keeps every file of the source, each under the item its path starts with; items have distinct names, and an item without paths below it holds plain files of its name |
| UploadPlan.PlanUploadRows | ui/src/upload-plan.ts:150-166 | Rows are planned with the vault suffix for encrypted files and without it for directories |
| UploadPlan.ResolveUpload | ui/src/upload-plan.ts:173-217 | The nested loops give, row by row, every file and directory under the row's final name and the replaced directories |
| UploadPlan.ErrorFreeUploadsAreSafe | ui/src/upload-plan.ts:150-217 | The rows of an error-free plan have distinct final names that are plain components, whatever sources the items come from and even if names repeat |
| UploadPlan.RenamingIsInjective | ui/src/upload-plan.ts:173-217 | Two files, or two directories, of error-free rows get the same path if and only if they are the same path of the same row |
| UploadPlan.FileMeetsDirectory | ui/src/upload-plan.ts:173-217 | A file and a directory get the same path if and only if they are in one row and the vault suffix turns the file's path into the directory's |
| UploadPlan.EncryptedFileMeetsDirectory | ui/src/upload-plan.ts:89-217 | For all usable names: a source with a file and a directory of the encrypted file's name is planned without errors and resolved onto one path |
| UploadPlan.QueueKeepsPath | ui/src/upload-queue.ts:100-118 | The queue keeps a planned path if and only if the row's final name has no backslash |
| UploadPlan.BackslashLeavesThePlan | ui/src/destination-plan.ts:185-205 | Counterexample for all names: an error-free plan whose file the queue puts into another directory |
| UploadPlan.PlannedUploadIsAdmitted | ui/src/upload-queue.ts:183-246 | A safe plan without backslashes in its final names is admitted whole by the queue, unless it is empty or exceeds the limit |
| UploadDialog.StepKeeps | ui/src/components/global-file-import-handler.tsx:289-382 | Every addition, removal and closing of the dialog keeps its items grouped and contained, their keys growing and their files within the limit |
| UploadDialog.WithoutIs | ui/src/components/global-file-import-handler.tsx:370-381 | Removing takes out exactly the rows of one key |
| UploadDialog.DialogPlansAreSafe | ui/src/components/global-file-import-handler.tsx:289-382 | After any run of the dialog, with whatever names, rows have distinct keys and an error-free plan of them has distinct, plain final names |
| UploadDialog.DialogUploadIsAdmitted | ui/src/components/browser/upload-dialog.tsx:257-305 | From any run of the dialog to the queue: an error-free plan without backslashes is admitted whole by a queue without older rows, unless there is nothing to upload |
| UploadDialog.SameNameTwice | ui/src/components/global-file-import-handler.tsx:338-344 | Two sources of one name: in every directory the two rows are kept apart without the user |
| SearchFold.SortIsStable | ui/src/queries.ts:1057-1066 | Sorting orders by score and path and keeps the order within equal ranks |
| SearchFold.StablySortedIsUnique | ui/src/queries.ts:1057-1066 | There is only one such list, so the result does not depend on how a stable sort works |
| SearchFold.TopOfTop | ui/src/queries.ts:1095-1101 | Sorting and cutting a cut list with more behind it is sorting and cutting everything |
| SearchFold.StreamedSearchIsTop | ui/src/queries.ts:1073-1102 | For every batching the list is the best 100 of all matches, sorted once |
| SearchFold.BatchingDoesNotMatter | ui/src/queries.ts:1073-1102 | With at most one done event, folding any batches gives what one batch of all events gives |
| SearchFold.ArrivalOrderDoesNotMatter | ui/src/queries.ts:1057-1102 | With distinct paths every arrival order gives the same list |
| SearchFold.GrepBatchingDoesNotMatter | ui/src/queries.ts:1105-1132 | Content matches stay in the order found, and any batching gives what one batch gives |
| GitDiffBatches.FetchGitDiffBatches | ui/src/queries.ts:737-759 | Every file is requested once and in order, in as few requests of at most 128 files as possible, and its diff is taken from its own place of its own request |
| Ndjson.StreamNdjson | ui/src/api-transport.ts:180-226 | Batches are never empty; how the stream ends depends on the text alone; a text whose lines all parse yields exactly its non-empty lines and fails exactly if it ends inside a line |
| Ndjson.StreamIsText | ui/src/api-transport.ts:203-218 | The unfinished line and the yielded values are functions of the text read so far, for every chunking |
| Ndjson.YieldsArePrefix | ui/src/api-transport.ts:203-218 | What is yielded before a failure is a prefix of the parsed lines |
| Ndjson.YieldsDependOnTextExactlyIf | ui/src/api-transport.ts:203-218 | All divisions of a text into chunks yield the same values if and only if all its lines parse or its first non-empty line does not |
| Ndjson.BadLineDependsOnChunks | ui/src/api-transport.ts:209-217 | Counterexample: two divisions of one text whose second line does not parse yield one value and none |
| ExecWire.OutputRecordsFit | crates/redoor-agent/src/exec.rs:39-66 | The record of one pipe read of at most 8192 bytes is shorter than the caller's 64 KiB limit |
| ExecWire.RecordHasNoNewline | crates/redoor-agent/src/exec.rs:37-46 | No record contains a newline |
| ExecWire.EncodeInjective | crates/redoor-protocol/src/wire/exec.rs:53-75 | Different events have different records, so decoding can undo encoding |
| ExecServer.StepKeeps | crates/redoor-server/src/actors/router/streams.rs:342-428 | Every frame, stop, loss, result and read keeps the order of the frames and what was queued before a stop |
| ExecServer.BodyIsPrefix | crates/redoor-server/src/actors/router/streams.rs:342-428 | However connection, router and body interleave, the answer carries the first of the agent's events in order: all unless the stream was stopped, and then all that were queued before and at most one more; a finished answer ends with the command's result |
| ExecServer.OnlyCancelsStop | crates/redoor-server/src/actors/router/output.rs:230-248 | Without a cancel request only the loss of the agent stops the stream |
| ExecServer.NeverStuck | crates/redoor-server/src/http/exec.rs:65-97 | Until the answer has ended there is a step that leaves less to do |
| ExecServer.WorkNeverGrows | crates/redoor-server/src/http/exec.rs:65-97 | No run of frames, reads, stops and losses leaves more to do than there was |
| ExecServer.AnyPrefixCanArrive | crates/redoor-server/src/actors/router/output.rs:163-248 | For every number of events there is a run with a cancel request in which exactly so many arrive |
| ExecPipeline.Run | crates/redoor-agent/src/exec.rs:48-146 | For every interleaving of reads, sends and ends one event per read that was sent, all before the event the command ends with; a cancel or deadline drops a read that still waits to be sent |
| ExecPipeline.EventsCarryTheOutput | crates/redoor-agent/src/exec.rs:48-146 | The bytes read from a pipe are those its events carry, in order, followed by those of the read that was still waiting at the end |
| ExecPipeline.EventsFit | crates/redoor-agent/src/exec.rs:48-146 | Every output event fits a record, the command ends with an event that has an exit status, and an exit leaves no read waiting |
| ExecPipeline.Consume | crates/redoor-cli/src/exec.rs:118-142 | For every chunking the result is that of the body read byte by byte, up to the first terminal event or error, or the failure of an answer that breaks off |
| ExecPipeline.FeedLong | crates/redoor-cli/src/exec.rs:127-127 | A record that reaches the limit is refused whatever is in it |
| ExecPipeline.ExecutionIsFaithful | crates/redoor-cli/src/exec.rs:70-142 | From pipes to pipes: for every interleaving on the agent, every run of the server and every chunking the caller prints exactly the events the answer carried, which are the first that were sent, and, unless the command exited, one line on how it ended, or with JSON output the whole body, and ends with the command's status; only an error message too long for a record is refused |
| ExecPipeline.OutputIsComplete | crates/redoor-server/src/http/exec.rs:65-97 | The caller prints everything read from a pipe if and only if no read of that pipe was waiting when the run ended and none of its events is missing from the answer; a command that exits without a cancel request is printed completely |
| ExecPipeline.AnyPartCanBePrinted | crates/redoor-server/src/actors/router/output.rs:230-248 | For every run on the agent and every number of its events there is a run of the server after which exactly those are printed, with the command's status |
| ExecPipeline.PendingReadIsLost | crates/redoor-agent/src/exec.rs:132-136 | Counterexample: a byte that was read before the deadline is not printed |
| ExecPipeline.CanceledOutputIsLost | crates/redoor-server/src/actors/router/output.rs:230-248 | Counterexample: a byte that was sent is not printed after a cancel request |
| ExecPipeline.ExitAfterCancelIsIncomplete | crates/redoor-server/src/actors/router/output.rs:163-178 | Counterexample: a command that exits before its cancel arrives ends with its status and without its output |
| ExecPipeline.LostAgentIsReported | crates/redoor-server/src/actors/router/cleanup.rs:275-310 | When the agent is lost the caller reports a failure and no status, and has printed exactly the events whose lines it got whole, wherever the answer breaks off |
| DeviceId.StoredIdIsRead | crates/redoor-agent/src/device_id.rs:85-102 | The stored text of an id is read back as that id |
| DeviceId.StepKeeps | crates/redoor-agent/src/device_id.rs:57-134 | Every step of any process, with errors and crashes, keeps the invariant |
| DeviceId.PublishedStays | crates/redoor-agent/src/device_id.rs:57-134 | Once there is an id file no step changes it, where publishing cannot replace |
| DeviceId.OneDeviceId | crates/redoor-agent/src/device_id.rs:57-134 | Where publishing cannot replace a file or there was one from the start, in every run all processes that return an id return the same one and it is the one in the file; in all runs the file is never partial and private files are left only by crashes or failed removals |
| DeviceId.PlainRenamesCanDisagree | crates/redoor-core/src/atomic_rename.rs:124-147 | Counterexample: where only checked ordinary renames work, two processes can return different ids |
| DeviceId.AllRunsAgreeExactlyIf | crates/redoor-agent/src/device_id.rs:57-134 | All processes agree in every run if and only if publishing cannot replace a file or there was one from the start |
| CopyTransfer.Transfer.Upload | crates/redoor-cli/src/copy.rs:317-370 | The upload token is owned from before the request until the confirmed response |
| CopyTransfer.Transfer.Download | crates/redoor-cli/src/copy.rs:375-442 | Interrupted or failed anywhere, the private path is owned or still being created; a publication is recorded only for a whole stream |
| CopyTransfer.Transfer.Copy | crates/redoor-cli/src/copy.rs:447-485 | Interrupted or failed anywhere, an admitted transfer whose id is known and that has not ended is owned |
| CopyTransfer.Transfer.Cleanup | crates/redoor-cli/src/copy.rs:158-207 | Cleanup succeeds exactly if what still ran ended well, what is owned on the server could be cancelled and the private path, if there is one, could be removed; then the path is gone and, after a failure, what was owned on the server was sent a cancellation |
| CopyTransfer.Transfer.Run | crates/redoor-cli/src/copy.rs:584-640 | For every place of failure or interruption: without a cleanup error nothing private is left, only whole streams are published, success means the content arrived and nothing was cancelled, and failure cancels every unconfirmed upload and every running transfer except exactly those whose admission reply was lost; such a run ends as a plain failure with the transfer running and not cancelled, or with a failed cleanup if it was interrupted while the reply was awaited |
| ConnectionTeardown.ReadMessages | crates/redoor-agent/src/ws.rs:50-119 | The reader gives one reason, that of the turn that ended its loop, and none if shutdown interrupted a delivery |
| ConnectionTeardown.StepKeeps | crates/redoor-agent/src/ws.rs:123-187 | Every step of reader, monitor, writer and runtime keeps the invariant around the shutdown flag |
| ConnectionTeardown.LossReportedOnce | crates/redoor-agent/src/ws.rs:50-222 | In every interleaving at most one loss is reported, by the task that set the flag and with its reason; once all tasks ended it was reported exactly if a task set the flag |
| ConnectionTeardown.ReaderReasonIsReported | crates/redoor-agent/src/ws.rs:50-119 | If the reader's loss is the one reported, its reason is the one its loop gave over all its turns |
| ConnectionTeardown.FirstToStopWins | crates/redoor-agent/src/ws.rs:123-187 | From the moment the shutdown flag is set, whatever the tasks find later, only the loss of the task that set it can be reported |
| ConnectionWriter.WriteFrames | crates/redoor-agent/src/ws.rs:224-270 | The loop over the three lanes is the specification turn by turn, up to shutdown, a closed control lane or a failed write |
| ConnectionWriter.TurnTakes | crates/redoor-agent/src/ws.rs:234-250 | A turn takes at most one frame, and only when every higher lane is empty |
| ConnectionWriter.LanesAreQueues | crates/redoor-agent/src/ws.rs:234-250 | What was taken from a lane is a prefix of what arrived in it, and while running nothing is lost |
| ConnectionWriter.ActionsFollowFrames | crates/redoor-agent/src/ws.rs:251-269 | Frames are written in the order taken, and a frame's action runs only after its own frame was written |
| ConnectionWriter.ControlGoesNext | crates/redoor-agent/src/ws.rs:234-250 | Waiting control frames are the next ones taken, in order and before any other frame, whatever arrives |
| SettingsWrites.WritesConverge | ui/src/user-state.ts:342-385 | In every run of updates at most one write is in flight, no write sends an older state than one before it, and when none is pending the last one sent what is shown |
| SettingsWrites.StepKeeps | ui/src/user-state.ts:342-439 | Every update, start, end and release of a write keeps the order of writes and the pending count |
| SettingsWrites.SettingsWriter.Update | ui/src/user-state.ts:423-439 | Any state but the very object that is shown is shown at once and one write is scheduled; that object is not written again |
| SettingsWrites.SettingsWriter.WriteStarts | ui/src/user-state.ts:365-374 | A write that reaches its turn sends the latest state |
| DeviceOrder.DedupeIds | ui/src/user-state.ts:232-246 | Each id once, in the order of its first occurrence |
| DeviceOrder.ResolveDeviceOrder | ui/src/user-state.ts:252-274 | The two loops show the saved devices that are there, then the rest of the inventory |
| DeviceOrder.ResolvedIsInventory | ui/src/user-state.ts:252-274 | The order shows every device of the inventory once and no other |
| DeviceOrder.ResolvedIsStable | ui/src/user-state.ts:252-274 | Saving the shown order shows it again |
| DeviceOrder.CommitDeviceOrder | ui/src/user-state.ts:280-316 | The loops that complete the saved order and write the moved part back give the specified order |
| DeviceOrder.CommitShowsTheMove | ui/src/user-state.ts:280-316 | A committed move shows exactly the moved order and every device that is not shown keeps its slot; a move of or onto such a device saves nothing |
| DeviceOrder.MovedRearranges | ui/src/utils/reorder.ts:18-40 | A move loses nothing and adds nothing |
| DeviceOrder.WriteSlots | ui/src/utils/reorder.ts:46-70 | The running index writes the reordered part into the visible slots only |
| HistoryEntries.HistoryEntryStore.Set | ui/src/history-entry-state.ts:42-54 | After any run of writes the store holds the most recently written keys of all writes, up to its limit |
| HistoryEntries.FoundWhileRecent | ui/src/history-entry-state.ts:38-54 | A written key is found, with its last value, exactly while fewer other keys than the limit were written after it |
| HistoryEntries.NeverWritten | ui/src/history-entry-state.ts:38-40 | A key that was never written is not found |
| Shortcuts.FirstApplyingWins | ui/src/shortcuts.ts:108-121 | The first sorted candidate that applies has the highest priority and, among equals, the earliest registration |
| Shortcuts.ShortcutRegistry.Dispatch | ui/src/shortcuts.ts:103-122 | An unclaimed press is claimed if and only if the phase has a winner, and by that winner, of which there is one at most; a claimed press changes nothing |
| Shortcuts.ShortcutRegistry.Press | ui/src/shortcuts.ts:103-164 | Over both phases a press is claimed at most once, by the capture winner or else, if nothing on the page stops it, by the bubble winner |
| Shortcuts.ShortcutRegistry.Unregister | ui/src/shortcuts.ts:90-97 | Removing takes exactly one binding out, and the listeners stay exactly while something is registered |
| Retries.ReadBoundedTail | crates/redoor-core/src/bounded_tail.rs:11-28 | The last bytes of the stream up to the limit, for every chunking |
| Retries.Backoff.NextDelay | crates/redoor-core/src/backoff.rs:41-45 | After k waits since a reset the bound is min(2^k, 30) seconds and the wait lies between half of it and it |

## Left out

- HTTP, WebSocket, TLS, the async runtime, fetch, gzip and JSON libraries: reads and writes are sequences of chunks or events, and what a library decides is a parameter.
- Tar header accessors are modelled after the ustar format of IEEE Std 1003.1 (pax, section "ustar Interchange Format") with the GNU long-name and base-256 forms; the tar library's own leniencies, such as signs in octal fields, are not. The name the library gives a long-name record itself is assumed; nothing reads it.
- File systems that fail in the middle of a write, fold case or normalize names, and entries that change while the walk runs, other than a file that is shorter or longer than announced.
- DestinationPlan.PlansNeedNoUserExactlyIf: items at their own destination are excluded, because the code deliberately gives them their own name, which another item may use; for items with different suffixes the condition is sufficient (`DefaultPlansNeedNoUser`) and not necessary (`OtherSuffixHidesTheSpace`).
- UploadPlan.RenamingIsInjective: compares paths before the queue rewrites backslashes; `QueueKeepsPath` says when it does not.
- UploadRuns.NeverStuck: says that an event is possible, not that the network delivers it.
- ExecPipeline.Run: when a send waits and for how long is not modelled, only that any read may still wait when the run ends.
- ExecServer.BodyIsPrefix: an agent that keeps to its credit never overflows the queue, so that failure is not a step; neither is a caller that closes the answer.
- ExecPipeline.ExecutionIsFaithful: assumes a JSON decoder that undoes the encoding; that one exists is `EncodeInjective`. Octets of records are characters, and error messages are taken as encoded text.
- WorktreeBatcher.AllSettledWithin: assumes, as the agent's interface promises, that a response answers at least one requested path.
- SettingsWrites.WritesConverge: a refetch that started before an update and ends after it is not modelled; the code only avoids starting one while a write is pending.
- DeviceId.OneDeviceId: nobody deletes or edits the id file while processes run, and private names are unique.
- CopyTransfer.Transfer.Run: one private path per run; which bytes the place operation moves is not modelled, only whether it publishes, leaves something behind or fails.
- Shortcuts.ShortcutRegistry.Dispatch: commands that register or remove bindings while they run.
- SearchFold.BatchingDoesNotMatter: scores are integers. Paths are ordered by characters; JavaScript compares UTF-16 units, which differs where a path has characters outside the basic plane.
- Exceptions thrown by callbacks such as `onSettled`, abort listeners or unload handlers.
- React views, routes and query caches, request wrappers, generated types, token proofs and certificates, signals, process groups, login and account lookups, progress formatting.
- `parse_env`, `parse_duration`, `waitForTransfers`, `countUploadFiles` beyond its sum, and the editors' open-file and bookmark lists.
