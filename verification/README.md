# Verified models of the assistant's backend

A Dafny project about the parts of the backend whose correctness is hardest to see from one
function. `dafny verify dfyconfig.toml` checks all of it.

**Workflow engine, recorder and resume.** A workflow is a tree of typed stages over one shared slot
dictionary; loops retry their items, nested workflows run their own stage list over their own
slots, and every stage and item is recorded on disk under an address
of stage names and item numbers. `Engine.dfy` gives one dispatch as a recursive semantics over
slots, recorded tree, invocation counters, event stream and a stop clock; a stage runner is a
function of the invocation number and the slots that returns, raises or aborts, and the stop clock
cancels the runner call in flight when it runs out. `Orchestrator.dfy`, `Recorder.dfy` and
`Resumption.dfy` hold the objects and loops that do the work step by step, proved to do what the
semantics says. On that semantics stand bracketing (`EngineSteps.dfy`, `WorkflowRuns.dfy`), loop
accounting (`LoopAccounting.dfy`), noninterference (`Scoping.dfy`), reconstruction
(`Reconstruction.dfy`, `FreshRuns.dfy`, `ReplayProof.dfy`, `CutProof.dfy`,
`ReconstructionProof.dfy` at stopped addresses), reconstruction at any recorded stage in any attempt
(`AttemptRecords.dfy` and `Listings.dfy` on what attempts leave on disk, `Reaching.dfy`, `Entries.dfy`,
`Levels.dfy` and `RecordedStages.dfy` on where a run dispatched a stage, `ReplayAnywhere.dfy`,
`ReachedReconstruction.dfy`, `SpoiledReconstruction.dfy`, `RunReconstruction.dfy` and
`ExactReconstruction.dfy` on what is rebuilt there), resume (`ResumeProof.dfy`, `ResumedRuns.dfy`),
where things are filed (`Filing.dfy`) and the cursor successor (`Navigation.dfy`); `Witnesses.dfy`
holds concrete runs. Addresses, the workflow's data and what the
recorder writes are in `Addresses.dfy`, `WorkflowModel.dfy` and `EngineRuns.dfy`.

A workflow is *well named* when its stage names are distinct, its branches jump forward, and the
scratch slots of a loop (item variable, retry slots, everything its inner stages write) are not
declared outside it. Reconstruction needs no more.

Resuming needs besides that the stages from the stopped one on are *scoped*: their conditions,
templates and runners depend on nothing but the slots in scope, the runners not on the invocation
number either. In scope at the top level are the user message and the declared outputs of all stages
of the list, later and skippable ones included, but for the outputs of stages recorded as skipped;
inside a loop also the item variable, the retry slots, the inner stage names and the outputs of
earlier inner stages that cannot be skipped. A stopped address is *resumable* when this holds, every
item on the way was in its first attempt, and no stage of these items that declares an output is
recorded as skipped.

The way to a recorded stage is *intact* when no earlier top-level stage that declares an output is
recorded as skipped, every item on the way has its item result, and every earlier stage of these
items that declares an output is *faithful* to the attempt the way's own stage was last announced in:
it was not skipped in that attempt, and its last attempt file has the same result; a loop was last
announced in that attempt, and no item result beyond its own items is left. All of this is read off
the files.

**Streams and chunks.** The retrieval chunker (`Chunking.dfy`), the two line packers (`Packing.dfy`,
`FileChunking.dfy`) over the lines of a text (`TextLines.dfy`), the incremental think parser
(`ThinkingParser.dfy`), the live prose and tool-call splitter (`LiveSplitter.dfy`) and the audio
segmenter (`StreamingTranscriber.dfy`).

**Conversation tree and memory.** `MessageTree.dfy` states which trees are well formed and where live
memory may sit; `Conversations.dfy` holds the router's operations and the memory synthesis.

**Search and indexing.** Top-k search with a heap on an array (`TopKSearch.dfy`) and incremental
indexing of workspace files (`Ingestion.dfy`).

**Confirmation relay.** `ConfirmRelay.dfy` models nested stage sessions, their forwarders and the
client as interleaved steps.

## Model

| member | source | states |
|---|---|---|
| WorkflowRuns.ResumeEquivalence | backend/agent/custom_workflow.py:345-409 | Stop and resume: a fresh run stopped at any runner call at any loop nesting depth during first attempts, and resumed from its recorded files, with whatever sequence counters, at any address recorded as stopped, ends with the same outcome as the uninterrupted run and the same value in every declared output slot but those of top-level stages skipped before the stop; only the stages from the stopped one on must be deterministic, and depend on no slot of a skipped stage |
| Orchestrator.StopThenResume | backend/agent/custom_workflow.py:345-409 | The same end to end, over the objects: a new orchestrator stops the run, a new recorder reopens its files, and another orchestrator resumes it |
| ExactReconstruction.ReconstructionExact | backend/agent/workflow_resume.py:23-36 | Reconstruction refines execution, exactly: on any fresh run with distinct outputs (completed, failed, aborted or stopped), for any recorded stage at any loop nesting depth and in any attempt, runners being deterministic or not, rebuilding the slots up to it gives the live value, in the state of its last entry, of the user message, of every output of the stages before it on its own way and of every item variable there, if and only if the way to it is intact on disk |
| RunReconstruction.ReconstructionHolds | backend/agent/workflow_resume.py:108-178 | The same for any intact way, whatever the outputs: items in later attempts, failed items and stops during a retry included |
| RunReconstruction.RecordedReached | backend/agent/custom_workflow.py:594-639 | A recorded stage was reached by the run, in a definite state, when every loop inside an item on its way was announced in one attempt of that item |
| RunReconstruction.LastEntered | backend/agent/custom_workflow.py:568-592 | The state a run reached an address in is the one its last entry event at that address was emitted in |
| Witnesses.RetrySpoils | backend/agent/custom_workflow.py:859-914 | A failed item: a is done and b raises, then a raises in the second attempt; at b, whose way is not intact, a is rebuilt as None while b was dispatched with the value a had written in the first attempt |
| Witnesses.SkipSpoilsItem | backend/agent/workflow_resume.py:181-201 | A skipped stage inside an item is rebuilt as None at the next stage, which was dispatched without that slot |
| Witnesses.AbortLosesItem | backend/agent/custom_workflow.py:889-895 | An abort that escapes an item leaves no item result, and at the stage that aborted the rebuilt slots are not the live ones |
| RunReconstruction.ReconstructedBefore | backend/agent/workflow_resume.py:23-36 | At the end of any fresh run, reconstruction at any recorded top-level stage gives the final value of the user message and of every output of the stages listed before it, when outputs are distinct and none before it with an output was skipped |
| WorkflowRuns.RunBracketed | backend/agent/custom_workflow.py:594-639 | Over every fresh run, whether it completes, raises, aborts or is cancelled: enter and exit events, nested workflows included, are properly nested pairs, execution ids never repeat, sibling sequence numbers are distinct, and no meta record is left running |
| ResumedRuns.ResumeBracketed | backend/agent/custom_workflow.py:481-529 | Over every resumed run, stopped again or not: the enter and exit events, narrated and live, are properly nested pairs, execution ids never repeat between them, sequence numbers are kept and distinct, and nothing is left running that was not |
| LoopAccounting.LoopAccounted | backend/agent/custom_workflow.py:794-973 | In any run, fresh or resumed, a list loop that completes has emitted one item exit per item in input order, its tally is exactly their successes and failures and sums to item_total, and its output slot is exactly their results |
| Filing.RunsFiled | backend/agent/workflow_run_recorder.py:251-268 | Every fresh run files each item result in the directory of its own number, as loop accounting relies on |
| Filing.ResumesFiled | backend/agent/workflow_run_recorder.py:251-268 | So does every resume of a run that did |
| LoopAccounting.ItemIsolated | backend/agent/custom_workflow.py:826-846 | On a fresh item every result in its record was absent when the item started, so nothing is left over from an earlier item; the record carries the item itself and at most max_retries + 1 attempts, all of them when it failed |
| Navigation.SuccessorIsLeast | backend/agent/workflow_resume.py:39-73 | next_address_after finds, among the recorded nodes beyond the whole subtree of its argument, the first in depth-first order, and never fails on a recorded address |
| Navigation.SuccessorIsBeyond | backend/agent/workflow_resume.py:39-73 | What next_address_after finds is itself a recorded node beyond the whole subtree of its argument |
| Navigation.NothingLeftAtTheEnd | backend/agent/workflow_resume.py:39-73 | next_address_after answers None exactly when no recorded node lies beyond the subtree |
| Navigation.ResumePoint | backend/agent/workflow_resume.py:94-105 | A recorded node that failed or was stopped resumes in place, any other at a recorded node beyond its subtree, and there is nothing to resume exactly when it did neither and nothing lies beyond it |
| Navigation.CursorMoves | backend/agent/workflow_resume.py:108-138 | At any depth, moving the cursor from a recorded stage to its next sibling changes the rebuilt slots by exactly that stage's own write |
| Witnesses.StoppedRunExists | backend/agent/custom_workflow.py:896-903 | The stopped runs the resume theorems speak of exist: a list loop stopped inside an item, seen from the stage that was running |
| RecorderHistory.NumbersStable | backend/agent/workflow_run_recorder.py:207-215 | Over any number of calls and reloads, siblings have distinct sequence numbers, dense from 0 and in first-write order, and an address never changes its number |
| RecorderHistory.ReloadRecovers | backend/agent/workflow_run_recorder.py:86-106 | Reopening a run recovers exactly the next free number of every directory |
| RecorderHistory.CallSound | backend/agent/workflow_run_recorder.py:217-264 | Every recorder call and every reload keeps sibling numbers distinct and dense and changes no number already given |
| Addresses.AddressRebuilt | backend/agent/workflow_run_recorder.py:142-159 | An address is rebuilt from its dotted path and its item ancestry |
| Addresses.AddressInjective | backend/agent/workflow_run_recorder.py:142-159 | address_for maps different pairs of path and item ancestry to different addresses |
| DirectoryNames.DirectoriesDistinct | backend/agent/workflow_run_recorder.py:142-166 | With stage names that are not numbers, different addresses are different directories |
| DirectoryNames.DirectoriesShared | backend/agent/workflow_run_recorder.py:142-166 | Two addresses are one directory exactly when they differ only in stages named like the number of the item in the same place |
| DirectoryNames.NumericNameCollides | backend/agent/workflow_run_recorder.py:142-166 | address_for maps two different legal pairs of path and item ancestry to one directory when a stage is named like a loop item, so for arbitrary pairs names that are not numbers are needed |
| Filing.RunDirectoriesDistinct | backend/agent/workflow_run_recorder.py:142-166 | Within one run no two recorded addresses share a directory, whatever the stages are named, because a stage is either a loop, followed by items, or a nested workflow, followed by stages |
| Recorder.IndexFiles | backend/agent/workflow_run_recorder.py:97-105 | One pass over the persisted meta files, in any order, gives every address its number and every directory the number after its highest |
| Recorder.WorkflowRunRecorder.Load | backend/agent/workflow_run_recorder.py:86-106 | A reopened recorder keeps the files and rebuilds its indexes from them |
| Recorder.WorkflowRunRecorder.AddressOf | backend/agent/workflow_run_recorder.py:142-159 | The loop over the path segments computes the address of the path under the active items |
| Recorder.WorkflowRunRecorder.SequenceFor | backend/agent/workflow_run_recorder.py:207-215 | An address with a meta file keeps its number; any other gets the next free one of its parent, which moves on by one |
| Recorder.WorkflowRunRecorder.WriteMetaFile | backend/agent/workflow_run_recorder.py:276-288 | The meta file of one address, with its number, and no other file |
| Recorder.WorkflowRunRecorder.OnStageEnter | backend/agent/workflow_run_recorder.py:221-235 | A stage entry is recorded as running at its address and remembered under its execution id |
| Recorder.WorkflowRunRecorder.OnStageExit | backend/agent/workflow_run_recorder.py:237-249 | A stage exit writes status and attempt file at its address and forgets the id; without a matching entry nothing changes; a failed or stopped stage becomes the last failed address |
| Recorder.WorkflowRunRecorder.OnLoopItemExit | backend/agent/workflow_run_recorder.py:251-268 | An item exit writes the item result in the item's own directory, and no other file |
| EngineSteps.DispatchSteps | backend/agent/custom_workflow.py:594-639 | Every dispatch writes only below its own address, emits one nested bracket there, never reuses an execution id, keeps sequence numbers, and leaves nothing new running |
| EngineSteps.ItemsSteps | backend/agent/custom_workflow.py:801-967 | The items of a loop, replayed or live, write and emit only below the loop |
| EngineSteps.AttemptsSteps | backend/agent/custom_workflow.py:856-916 | All attempts of an item write and emit only below that item, however they end |
| EngineSteps.InnerSteps | backend/agent/custom_workflow.py:885-888 | One pass over the inner stages writes and emits only below its item |
| EngineSteps.StagesSteps | backend/agent/custom_workflow.py:1098-1112 | The stages of a nested workflow, under counters and item stack shared with the caller, write and emit only below it, in nested brackets with ids that never repeat |
| EngineRuns.DispatchUnstopped | backend/agent/custom_workflow.py:614-639 | A dispatch that is not cancelled, fresh or resumed inside, does exactly what it does without the stop button |
| FreshRuns.ItemsComplete | backend/agent/custom_workflow.py:801-967 | In a fresh directory a completed loop leaves exactly the records of its items on disk, recounting to its own tally, which covers every item, and to its aggregate, one result per item in order |
| FreshRuns.ItemsCut | backend/agent/custom_workflow.py:896-951 | A loop stopped in an item leaves the records of the items before it and a stopped record of that item |
| ReplayProof.ChildrenAppend | backend/agent/workflow_run_recorder.py:207-215 | A stage dispatched for the first time is listed last among its siblings |
| ReplayProof.LoopAggregate | backend/agent/workflow_resume.py:141-178 | The aggregate rebuilt from the item records of a completed loop is the one it wrote live |
| CutProof.LoopCut | backend/agent/custom_workflow.py:896-951 | A stopped loop was in one item, with all items before it recorded, and without the stop it would have gone on from there |
| CutProof.InnerCut | backend/agent/custom_workflow.py:885-903 | A stopped item was in one inner stage, reached in the same state with or without the stop, with the stages before it replayable from disk |
| AttemptRecords.DispatchFiles | backend/agent/workflow_run_recorder.py:221-249 | A dispatch that announces its stage leaves exactly one attempt file more or anew, under its attempt number, and a meta file that names it |
| Listings.DispatchSorted | backend/agent/workflow_run_recorder.py:207-215 | Whatever attempts an item goes through, its recorded stages are listed in the order of the stage list |
| Reaching.LastPassFacts | backend/agent/custom_workflow.py:859-914 | After the last attempt that announces an inner stage, that stage's files stay as they are, and those of the stages before it change only by being announced again in a later attempt |
| ReplayAnywhere.StageReplays | backend/agent/workflow_resume.py:181-201 | Replaying a stage that was not skipped gives its live write in any directory and any attempt; for a list loop when no item result beyond its own items is on disk |
| ReplayAnywhere.EntriesMore | backend/agent/workflow_resume.py:141-178 | Any item result beyond the loop's own items makes the rebuilt aggregate another one |
| ReachedReconstruction.StageFound | backend/agent/custom_workflow.py:801-903 | The state reached below a dispatched stage differs from the stage's own only in scratch slots, and is the one of the last entry there |
| ReachedReconstruction.StageRebuilt | backend/agent/workflow_resume.py:108-178 | Reconstruction inside any dispatched stage, however it ended and in any attempt, gives what the inner stage was last dispatched with when the way to it is intact |
| SpoiledReconstruction.StageSpoiled | backend/agent/workflow_resume.py:108-201 | When the way is not intact, a slot in view is rebuilt to something else: the item variable of an item without a result, or the output of a stage whose files replay to another value |
| RecordedStages.StageRecorded | backend/agent/custom_workflow.py:801-903 | Whatever is recorded below a dispatched stage was reached by it, when its loops were announced once |
| RecordedStages.StageOwn | backend/agent/custom_workflow.py:918-967 | The item results on the way to a reached stage are those of the items it was reached in: in any run that was not aborted, and in an aborted one whose loops on the way were announced once |
| ResumeProof.StageResume | backend/agent/custom_workflow.py:759-967 | Resuming inside a stopped stage, at any nesting depth, ends like the uninterrupted stage and agrees on what is in scope |
| ResumeProof.ReuseItems | backend/agent/custom_workflow.py:804-817 | On a resume the items before the cursor are taken from disk, with their recorded results and tally |
| ResumeProof.IdleItems | backend/agent/custom_workflow.py:784-792 | A cursor at an item with nothing recorded after it dispatches all remaining items as a fresh run does |
| WorkflowRuns.SequenceAgrees | backend/agent/custom_workflow.py:459-479 | Two runs of a stage list from slots that agree on what its stages depend on follow the same jumps and end alike |
| WorkflowRuns.NarrateRetold | backend/agent/custom_workflow.py:481-529 | Narrating the stages before the resume point changes no slot and no other stage's record |
| Resumption.SortBySequence | backend/agent/workflow_resume.py:120-125 | Sorting the recorded stages by their sequence numbers lists each of them once, in ascending order |
| Resumption.ListItemNumbers | backend/agent/workflow_resume.py:153-155 | The item directories of a loop in ascending order |
| Resumption.ReplayCompleted | backend/agent/workflow_resume.py:181-201 | The write of one completed stage, for every stage type |
| Resumption.RebuildStages | backend/agent/workflow_resume.py:108-138 | The loop over the recorded stages up to the cursor, and into the item it names |
| Resumption.RebuildItems | backend/agent/workflow_resume.py:141-178 | The loop over the recorded items up to the one the cursor names, whose own stages are walked; nothing is written for the loop itself |
| Orchestrator.CustomWorkflowOrchestrator.Dispatch | backend/agent/custom_workflow.py:594-639 | The dispatch over the mutable slots, counters, item stack and loop context does what the semantics says, restores the item stack, closes its execution id, and restores the loop context when it returns normally |
| Orchestrator.CustomWorkflowOrchestrator.RunByType | backend/agent/custom_workflow.py:641-668 | Every stage type is run by its own runner |
| Orchestrator.CustomWorkflowOrchestrator.Perform | backend/agent/custom_workflow.py:674-724 | An atomic runner writes its own output slot only when it returns |
| Orchestrator.CustomWorkflowOrchestrator.RunLoop | backend/agent/custom_workflow.py:740-973 | The loop over the items, reusing or dispatching each, then the aggregate and the tally |
| Orchestrator.CustomWorkflowOrchestrator.RunItem | backend/agent/custom_workflow.py:848-946 | One live item, with the item pushed for all its attempts and popped however they end, and its own exit event unless an exception escapes it |
| Orchestrator.CustomWorkflowOrchestrator.RunAttempts | backend/agent/custom_workflow.py:859-914 | The attempts of an item: retry templates from the second on, the cursor only in the first, abort and cancellation at once |
| Orchestrator.CustomWorkflowOrchestrator.RunInner | backend/agent/custom_workflow.py:885-888 | The inner stages in order, the cursor only for the first |
| Orchestrator.CustomWorkflowOrchestrator.RunSubWorkflow | backend/agent/custom_workflow.py:1075-1129 | A nested workflow runs over its own seeded slots and outside any loop context, with the caller's counters and item stack; the caller's slots get only the tallies, and are untouched when it fails |
| Orchestrator.CustomWorkflowOrchestrator.RunStages | backend/agent/custom_workflow.py:459-479 | The stages of a nested workflow with their jumps, and the tallies among their results |
| Orchestrator.CustomWorkflowOrchestrator.PrepareSlots | backend/agent/custom_workflow.py:826-843 | The slots an item starts with |
| Orchestrator.CustomWorkflowOrchestrator.ReadReusable | backend/agent/custom_workflow.py:801-821 | Which items of a resumed loop are read back from disk |
| Orchestrator.CustomWorkflowOrchestrator.NextExecutionId | backend/agent/custom_workflow.py:545-549 | An execution id that no open invocation has |
| Orchestrator.CustomWorkflowOrchestrator.EmitStageExit | backend/agent/custom_workflow.py:568-592 | An exit is recorded under the context of its own entry |
| Orchestrator.CustomWorkflowOrchestrator.RunStagesFrom | backend/agent/custom_workflow.py:459-479 | The stage list with branch jumps; an unknown target raises |
| Orchestrator.CustomWorkflowOrchestrator.ReplayStagesBeforeResume | backend/agent/custom_workflow.py:481-529 | The earlier stages are narrated under their recorded execution ids, loops with their items |
| Orchestrator.CustomWorkflowOrchestrator.RunStageSequence | backend/agent/custom_workflow.py:421-479 | A stage list from its start, or from the resume cursor |
| Orchestrator.CustomWorkflowOrchestrator.Run | backend/agent/custom_workflow.py:411-419 | A fresh run over an empty recorder is the run the theorems speak of |
| Orchestrator.CustomWorkflowOrchestrator.Resume | backend/agent/custom_workflow.py:345-409 | A resumed run over the files a recorder holds, stopped again or not, is the resumed run the theorems speak of |
| Chunking.OverlapGuarantee | backend/rag/chunking.py:48-115 | Any run of consecutive lines, none oversized, costing at most OVERLAP_CHARS, and any single such line, stands whole in the text of one chunk |
| Chunking.SliceGuarantee | backend/rag/chunking.py:29-45 | Any stretch of an oversized line of at most OVERLAP_CHARS stands whole in one slice of it |
| Chunking.ChunksBounded | backend/rag/chunking.py:62-115 | No chunk is longer than TARGET_CHUNK_CHARS + OVERLAP_CHARS |
| Chunking.ChunksComplete | backend/rag/chunking.py:62-115 | For every text: chunks are numbered in order, equal their stated lines or are slices of one oversized line, leave no line out, each adds a line or a slice, every oversized line is sliced exactly once, and every short run is held |
| Chunking.ChunkText | backend/rag/chunking.py:62-115 | The line loop with its open window produces those chunks |
| Chunking.SplitOversizedLine | backend/rag/chunking.py:29-45 | The overlapping slices of a line; an empty line gives one empty slice |
| Chunking.OverlapTail | backend/rag/chunking.py:48-59 | The longest run of trailing lines worth at most OVERLAP_CHARS |
| TextLines.LinesLossless | backend/agent/compress.py:484 | Lines split with their ends kept concatenate back to the text |
| Thinking.FragmentsAgree | backend/llm/base.py:83-126 | For every fragmentation, total thinking and content equal the one-shot parse if and only if no boundary falls inside an opening tag that the one-shot parse recognises; closing tags may be split anywhere |
| Thinking.SplitOpening | backend/llm/base.py:108-115 | A split opening tag is taken for content |
| Thinking.ScanAdvances | backend/llm/base.py:90-118 | One feed emits exactly what the parse of the whole stream says of the text it takes in, and carries only inside a think block |
| Thinking.ThinkingParser.Feed | backend/llm/base.py:90-118 | The loop over the fragment, with the carry of at most eight characters kept only inside a think block |
| Thinking.ThinkingParser.Flush | backend/llm/base.py:120-126 | The carried text goes to the side the parser is on |
| LiveSplitter.LiveSplitter.Split | backend/llm/llama_server.py:561-588 | For every fragmentation: shown prose plus carry is the text before the first tool-call tag, or all of it; raw fragments plus the name buffer are the text from the tag on; no raw fragment comes before the one start event, which carries the first complete function name |
| LiveSplitter.LiveSplitter.Finish | backend/llm/llama_server.py:650-654 | At the end of an answer without a tool call everything has been shown |
| LiveSplitter.ShownBeforeTag | backend/llm/llama_server.py:576-582 | Nothing shown as prose is part of the tag, whatever the stream still brings |
| LiveSplitter.NoTagYet | backend/llm/llama_server.py:576-582 | Ten carried characters are enough to hold back every tag that is not complete yet |
| LiveSplitter.TagFound | backend/llm/llama_server.py:576-588 | A tag completed across fragments is found where it stands in the whole text |
| LiveSplitter.StreamAnswer | backend/llm/llama_server.py:606-654 | The think parser and the splitter driven fragment by fragment to the end of the answer: the splitter has taken in exactly the content the parser yields, and without a tool call all of it has been shown |
| ToolCallText.FunctionNameStable | backend/llm/llama_server.py:568-574 | The first complete function name found in a text is the one found in everything that continues it |
| StreamingTranscription.StreamingTranscriber.Feed | backend/system_audio/streaming_transcriber.py:79-88 | Every frame extends the stream and the speech counters, then exactly the act they call for follows; the segments sent tile the stream, a segment in flight is the last one sent, and no pause commit leaves a speech sample in the kept tail |
| StreamingTranscription.StreamingTranscriber.MaybeAct | backend/system_audio/streaming_transcriber.py:106-147 | While a transcription is in flight nothing happens; otherwise a pause after enough speech commits, else a full buffer is cut, else a long enough one is shown provisionally, with the counters reset accordingly |
| StreamingTranscription.StreamingTranscriber.CommitPause | backend/system_audio/streaming_transcriber.py:114-128 | The segment of a pause, with exactly the kept tail left; its buffer is always longer than the tail, so the branch for a shorter one is never taken |
| StreamingTranscription.StreamingTranscriber.CutByForce | backend/system_audio/streaming_transcriber.py:130-139 | The segment of a forced cut, with exactly the overlap left |
| StreamingTranscription.StreamingTranscriber.TranscriptionDone | backend/system_audio/streaming_transcriber.py:154-174 | A finished commit appends its words without the longest repetition of the committed tail; a failed or provisional one commits nothing; the next boundary is looked for |
| StreamingTranscription.StreamingTranscriber.Publish | backend/system_audio/streaming_transcriber.py:156-173 | What is emitted for a finished transcription: new words only for a commit, which also clears the provisional text, and an error when it failed |
| StreamingTranscription.StreamingTranscriber.DedupeAgainstCommitted | backend/system_audio/streaming_transcriber.py:176-191 | The longest leading run of words that repeats the committed tail is dropped, and the tail is the last words of everything committed |
| AudioSegments.NoGap | backend/system_audio/streaming_transcriber.py:114-139 | Every sample before the last committed end lies in a segment |
| AudioSegments.AtMostTwo | backend/system_audio/streaming_transcriber.py:130-139 | No sample lies in more than two segments |
| AudioSegments.EndsIncrease | backend/system_audio/streaming_transcriber.py:114-139 | Committed ends strictly increase |
| AudioSegments.PauseTaken | backend/system_audio/streaming_transcriber.py:114-128 | A pause commit extends the tiling and leaves only silence behind |
| AudioSegments.ForcedTaken | backend/system_audio/streaming_transcriber.py:130-139 | A forced cut extends the tiling by exactly its length |
| Conversations.Conversation.AddMessage | backend/routers/conversations.py:213-254 | A new message hangs under the named parent or the active message and becomes active; the tree stays well formed, with memory single, if and only if the named parent exists and no summary is added under a live one; an id in use changes nothing |
| Conversations.Conversation.BranchMessage | backend/routers/conversations.py:287-324 | An edit adds a sibling with the original's role, in context, and keeps the tree well formed and memory single, also when a summary is edited |
| Conversations.Conversation.SetActiveBranch | backend/routers/conversations.py:135-149 | The active message becomes the deepest message along only children; the tree stays well formed if and only if the chosen id exists |
| Conversations.Conversation.DeleteMessageBranch | backend/routers/conversations.py:327-400 | Deleting removes exactly the subtree, or splices out exactly the one message; the active message survives or moves to the documented successor, and is None exactly when nothing is left |
| Conversations.Conversation.ApplyWorkingMemory | backend/agent/compress.py:1392-1507 | A new live memory hangs at the end of the branch, the old one and exactly the covered messages are excluded, and memory stays single; nothing happens when there is nothing new to cover |
| Conversations.CollectSubtree | backend/routers/conversations.py:355-360 | The work list terminates with exactly the messages below the target |
| Conversations.BuildActiveBranchPath | backend/conv_helpers.py:49-64 | The walk up terminates with the full chain from the root to the active message |
| Conversations.FindDeepestLeaf | backend/conv_helpers.py:67-82 | The walk down terminates at a fork or a leaf, along only children |
| Conversations.BuildChildrenMap | backend/conv_helpers.py:69-72 | Every message's children in listing order |
| MessageTree.SingleLiveMemory | backend/agent/compress.py:1410-1416 | Every root-to-leaf path holds at most one live memory, and no summary lies below a live one |
| MessageTree.AddedSound | backend/routers/conversations.py:227-252 | A new message keeps parents named, the relation acyclic and the active id existing, exactly when the parent it names exists |
| MessageTree.AddedMemory | backend/routers/conversations.py:287-308 | A new message keeps memory single exactly when it is no summary under a live one |
| MessageTree.SplicedMemory | backend/routers/conversations.py:380-400 | Splicing out a message keeps memory single |
| MessageTree.PrunedMemory | backend/routers/conversations.py:354-379 | Deleting a subtree keeps memory single |
| MessageTree.SplicedForest | backend/routers/conversations.py:380-386 | Splicing out a message keeps the relation acyclic and every parent named |
| MessageTree.ChainUnique | backend/conv_helpers.py:57-63 | A message has one chain from a root |
| Conversations.MemoryAdded | backend/agent/compress.py:1466-1507 | After the old live memory of a branch is excluded a new one may hang at its end |
| Conversations.NothingElse | backend/routers/conversations.py:362-375 | With no sibling left the parent survives a deletion, and with no parent nothing does, so the active message never dangles |
| TopKSearch.Search | backend/rag/store.py:173-206 | Streams the scored chunks through the bounded heap: the best top_k of them by descending score, nothing discarded scores higher; a top_k below one raises exactly when some chunk can be scored |
| TopKSearch.RefinesFullSort | backend/rag/store.py:173-206 | The results have the scores of the first top_k of any full descending sort |
| TopKSearch.SortByScore | backend/rag/store.py:205 | The winners by descending score, none lost |
| Heaps.BoundedHeap.Push | backend/rag/store.py:183-184 | A push onto the array keeps the heap and adds exactly the entry |
| Heaps.BoundedHeap.Replace | backend/rag/store.py:185-186 | A replace on the array keeps the heap, takes out a least entry and puts in exactly the new one |
| Heaps.RootLeast | backend/rag/store.py:185 | No entry is less than the root of the heap |
| Ingestion.Space.IngestWorkspacePath | backend/rag/ingestion.py:97-132 | From any state earlier runs, edits and cancellations may have left, a completed run leaves one source per readable candidate whose chunks are those of its current text; unreadable candidates and other paths are untouched, also by a cancelled run |
| Ingestion.Space.AddSourceAndChunks | backend/rag/store.py:91-139 | The windows together hold every chunk with its embedding; a cancellation before the commit leaves the space as it was |
| Ingestion.SkippedUpToDate | backend/rag/ingestion.py:112-121 | A source skipped by its hash is up to date when hashes do not collide |
| Ingestion.StoredConsistent | backend/rag/store.py:91-106 | Replacing a source in place or adding it leaves one source per path and touches no other |
| Packing.SplitByLines | backend/agent/compress.py:479-493 | The chunks are consecutive whole lines, concatenate back to the text, exceed max_chars only as a single line, and no in-order line split with that property has fewer |
| Packing.FewestChunks | backend/agent/compress.py:485-489 | A split that closes a chunk only when the next line does not fit has the fewest chunks of all splits |
| FileChunking.ChunkFile | backend/agent/workflow_coordinator.py:114-178 | The chunks rebuild the file's lines exactly, have contiguous line ranges, hold exactly their stated lines or one slice of an oversized line, and stay within the budget |
| FileChunking.FixedSlicesTile | backend/agent/workflow_coordinator.py:109-111 | The slices of a line concatenate back to it and stay within the budget |
| FileChunking.Flush | backend/agent/workflow_coordinator.py:140-150 | A closed chunk extends the tiling of the lines |
| ConfirmRelay.AskerStillWaits | backend/agent/pipeline.py:304-325 | With a client that answers only confirmations it was shown, each once: for any depth and any interleaving, when a confirmation leaves the outermost queue its asker's own future is pending there and not set, and the answer sets exactly that future |
| ConfirmRelay.AnswerNeverLost | backend/agent/agent.py:433-436 | Every answer such a client gives wakes the latest asker of its tool |
| ConfirmRelay.AnswerWakesTheAsker | backend/agent/pipeline.py:304-325 | With any client: when a confirmation leaves the outermost queue its asker's own future is pending there, or was already set by an answer given before the question arrived |
| ConfirmRelay.WokenOnce | backend/agent/agent.py:433-436 | No future is set twice, an answer sets only the latest future of its tool, and an unanswered question is on its way up or can be answered |
| ConfirmRelay.StepRelayed | backend/agent/pipeline.py:304-325 | Every step of every session, forwarder and client keeps each travelling confirmation's own future pending where it is |
| ConfirmRelay.SeenInOrder | backend/agent/pipeline.py:306-325 | What arrives at the outermost queue from a session at any depth is a beginning of what that session's queue got: nothing lost, doubled or reordered |
| ConfirmRelay.AllForwarded | backend/agent/pipeline.py:249-250 | Once a forwarder has taken the end sentinel, everything before it has gone up |
| ConfirmRelay.StepInOrder | backend/agent/pipeline.py:306-325 | Every step keeps every queue holding exactly what its children's forwarders have taken off, in order |

## Left out

Workflow engine:

- Cursors inside a `type: workflow` stage, which the source does not handle: the resume and reconstruction theorems stop at such a stage, which is redone whole. Its mode and auto-safe commands are left out, and loading and seeding it is one function of the slots that may fail.
- Orchestrator.CustomWorkflowOrchestrator.RunStages: bounds the dispatches of one nested run by a limit; a nested workflow whose branches jump back for ever counts as raising there.
- Conditions, templates and stage runners are functions of the slots (and, for runners, of the invocation number); LLM, HTTP and shell calls behind them are not modelled.
- Orchestrator.CustomWorkflowOrchestrator.RunStagesFrom: takes a budget of dispatches; a run that uses it up counts as stopped between two stages, so workflows whose branches jump back for ever are covered up to any budget but not as one infinite run.
- WorkflowRuns.ResumeEquivalence: speaks of stops during first attempts only, because a resumed item starts its attempt counter again and may get more retries than the uninterrupted run; of items on the way in which nothing with an output was skipped; and of declared outputs only, because scratch slots of finished loops are not rebuilt.
- ExactReconstruction.ReconstructionExact: is exact where the files can tell. They cannot for a loop that was announced again after the attempt in question, whose item results are overwritten, nor for a stage skipped in a retry, or skipped with an output that is not cleared when its item starts: the slot may by chance hold what the replay writes. There RunReconstruction.ReconstructionHolds gives one direction. It agrees on the slots of the way only, not on those of stages from the cursor on, nor on retry slots.
- RunReconstruction.ReconstructionHolds: in an aborted run speaks of ways whose inner loops were announced in one attempt each, because an abort may leave an older item result in place of its own.
- ResumedRuns.ResumeBracketed: nests the stage events; a narrated item exit comes after the exit of its own loop, as the source emits it.
- Duplicate stage names in one list are allowed by the semantics but excluded from the resume theorems; the source's name index would take the last one.
- Cursors that match nothing recorded, or that point inside a loop without a list, leave the rebuilt slots as they are here, where the source raises; the theorems do not speak of them.
- The task summary next to the aggregated items is a function of those items and is part of the aggregate.
- Recorded activity transcripts, durations, display fields, stage types and truncation for the live view; `run.json` apart from the user message.
- Stage names are non-empty and contain no dot or slash; JSON encoding is the identity, and the file system a map from addresses to records.
- Resumption.RebuildStages: takes and returns the slots as a value, where the source writes into one shared dictionary.

Streams and chunks:

- Laziness of the chunker, which yields its chunks one at a time.
- Word characters of the function-name pattern are any predicate that excludes the angle brackets.
- The events between the think parser and the splitter on one stream are kept per component; HTTP streaming, grammars and the final parsing of tool-call XML are not modelled.
- Audio times are counted in samples, so the source's floating-point sum of frame lengths is exact here; tuning is the default one; voice detection, WAV encoding and the transcription itself are oracles, and committed text is its list of words.

Conversation tree:

- Ids of new rows are fresh; image attachments, titles, token counts and exclusion reasons are not modelled.
- The classifier and the summary writer are oracles, and each operation runs without another one in between.
- Superseded file reads and compressed tool results exclude only tool messages, so they cannot touch a memory and are left out.

Search and indexing:

- Scores are given for each chunk (None for a zero norm); embeddings, norms and the second query that fetches texts are not modelled, and a zero query vector returns nothing before any of this.
- A space is fed from one workspace; uploads and pasted texts, which may share a path with a workspace file, are not modelled, nor are ignore files.
- The sort of the candidate paths, the resolution of paths inside the workspace, and the list of processed sources a run returns.

Confirmation relay:

- Automatic safety evaluation, plan confirmations and questions, which use the same shape of map without the relay.
- The tool id of an open question is not asked again before it is answered and has arrived; abandoned stages, whose loop task is cancelled, are not modelled.
- A session's queue gets nothing after its end sentinel, because its stage loop has ended by then.
