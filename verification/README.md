# Dafny model of goose's conversation repair, streaming, local inference and downloads

A verification project for the parts of goose whose correctness is hard to see from the code. Each
module states what a component does as functions, gives the source's loops and in-place updates as
methods proved against them, and proves what the component is for as lemmas over every input, every
run or every reachable state.

- `ModelSlots`, `ModelSlotsProgress`, `ModelSlotsHistory`: the slots of the local inference runtime as a
  transition system of tasks, slot locks, the cold-load lock and registered waiters; what every state, every
  schedule and every run of it guarantees.
- `JsonScan`, `JsonText`, `JsonEscapes`, `ToolArguments`, `NativeToolParsing`: the scanners for truncated
  and embedded JSON, proved against a printer for JSON texts (sections 2 and 7 of RFC 8259).
- `Emulator`, `EmulatorProperties`, `EmulatorLines`, `EmulatorBlocks`: the streaming parser for
  text-emulated tool calls, and which commands and code it runs for every way of cutting the stream into chunks.
- `MediaMarkers`, `MediaConversion`: splitting message text at media markers.
- `Downloads`, `DownloadProperties`, `DownloadOutcomes`: the resumable sharded downloader against a server
  that may fail in every way but lie (sections 14.2, 15.3.7 and 15.5.17 of RFC 9110), and how it ends.
- `DownloadRegistry`, `DownloadEntries`: the map that admits downloads, the tasks beside it, and what an
  entry says of its task.
- `Messages`, `ConversationPasses`, `ConversationLoops`: messages and the nine passes of the repair.
- `ConversationRepair`, `RepairStability`: what repair reports, that repeating it ends, and which passes
  never find anything in its result.
- `TouchingTexts`, `TouchingMessages`, `ToolFlow`, `RepairGuards`, `RepairWitnesses`: when one run is
  enough, told from the branches that leave work for a second one, and lists on which it is not.
- `ToolPairing`, `ToolPlaces`, `Merging`, `ConversationShape`, `ShadowMap`: what repair guarantees.
- `Grains`, `RepairContents`, `RepairHeaders`, `RepairIssues`: what repair keeps, character by character and
  block by block, and what it reports.
- `Streaming`, `StreamLaws`: how a conversation and `collect_stream` take in streamed chunks.
- `Text`: whitespace and substring search as Rust's `str` has them.

`dafny verify dfyconfig.toml` checks the whole project.

## Reading the models

- **Slots.** A task's program counter has a place for every point at which another task can run: before
  and after each lock, send, load and generation. Spawning a stream inserts its slot, and a slot
  may also be inserted without its task, as when a log fails in between. A waiter registers
  while it still holds the slot lock, as a `Notified` future receives `notify_waiters` from its creation.
  Sends, loads and generations end, with success or failure as the step chooses.
- **Downloads.** A script gives what the outside does in each turn of the request loop; every theorem
  holds for every script, and a script that is used up leaves the download pending, so a theorem about
  all scripts is also about every moment at which the process may stop. An honest server reports the
  file's size or none, answers success only with 200 or 206, ends a 200 cleanly only when it is whole,
  and starts a 206 at the byte that was asked for; how far the 206 reaches is its own choice.
- **Emulator.** What the parser takes from its buffer is recorded as pieces, each with the raw text it
  covers; the emitted actions are a function of the pieces.
- **Second runs.** Marks follow the messages through the passes and are set only where a branch brings two
  texts together; the events of `ToolFlow` are those of the input, and the cut's conditions are about the
  list that reaches it.
- **Tool pairing** looks at the requests of assistant messages and the responses of user messages in
  the order of the conversation.

Where the code and its documentation disagree the model follows the code:

- The tests of the repair assume that a second run reports nothing. That does not hold for all inputs;
  `RepairGuards.OneRunIsEnoughIff` says exactly when it does, and `RepairWitnesses` gives lists.
- The documentation of `fix_conversation` promises user messages at both ends. That holds for lists
  that agree on two flags; `ConversationShape.EndsAreUserIffSingle` and `AlternatesIffNoClash` give the
  conditions for all lists.
- A destination counts as complete when a 206 ends cleanly, also when its range stops short of the end
  of the file; `DownloadProperties.ResumeIsCorrect` has the exact condition.
- Requests answered 416 are not counted as retries, so only ranged ones are bounded.
- A model can be refused with no download running; `DownloadRegistry.RefusedExactlyWhile` says when.
- Which `$` lines run depends on where the stream is cut; `EmulatorLines.WhichLinesRun` says which.

## Model

| member | source | states |
|---|---|---|
| ModelSlots.NextKeepsInv | crates/goose-local-inference/src/lib.rs:726-880 | every step of every task (stream, loader, generation, eviction, newly inserted slot) keeps: each slot lock and the cold lock has at most one holder and the holder is where it must be, a loading slot has its loader, a waiter's slot is loading, at most one slot is loaded, and the loader still has every other loaded slot to unload |
| ModelSlots.ReachableInv | crates/goose-local-inference/src/lib.rs:726-880 | the invariant holds in every state that any interleaving of any number of tasks reaches |
| ModelSlots.SettleKeepsInv | crates/goose-local-inference/src/lib.rs:758-830 | overwriting the loading slot (as loaded, or as empty after a failed send or load) and waking its waiters leaves no task waiting for a slot that is not loading, and no second loaded slot |
| ModelSlots.EmptyLoadedKeepsInv | crates/goose-local-inference/src/lib.rs:766-772 | emptying a loaded slot of another model disturbs no task: a generation on it would hold its lock |
| ModelSlots.EvictWakesNobody | crates/goose-local-inference/src/lib.rs:228-235 | an eviction's notification reaches no registered waiter, because a loaded slot has none |
| ModelSlots.InnerIsNotLoading | crates/goose-local-inference/src/lib.rs:738-750 | a task that holds the cold lock and its slot's lock does not find the slot loading |
| ModelSlotsProgress.OneLoadedOneLoading | crates/goose-local-inference/src/lib.rs:726-833 | in every reachable state at most one slot is loaded and at most one loading, and a loading slot's loader holds the cold lock |
| ModelSlotsProgress.LocksExclude | crates/goose-local-inference/src/lib.rs:726-833 | two tasks never hold the same slot's lock, nor both the cold lock |
| ModelSlotsProgress.InnerLoadingIsUnreachable | crates/goose-local-inference/src/lib.rs:742-748 | the inner `Loading` branch is never taken in any reachable state |
| ModelSlotsProgress.GenerationUndisturbed | crates/goose-local-inference/src/lib.rs:851-880 | while a generation runs its slot stays loaded and locked by it, through every run of the other tasks, including new streams and evictions (which streams generate: `ModelSlotsHistory`) |
| ModelSlotsProgress.WaitersHaveALoader | crates/goose-local-inference/src/lib.rs:730-734 | a waiter that has not been woken waits for a slot that is loading, with a live loader that holds the cold lock |
| ModelSlotsProgress.NoLostWakeUp | crates/goose-local-inference/src/lib.rs:758-830 | the step that ends a slot's loading wakes every task registered on it |
| ModelSlotsProgress.ColdWaitersHoldNoSlot | crates/goose-local-inference/src/lib.rs:735-739 | no task waits for the cold lock while it holds a slot lock |
| ModelSlotsProgress.NoDeadlock | crates/goose-local-inference/src/lib.rs:726-880 | a reachable state has an enabled step exactly when some task is unfinished |
| ModelSlotsProgress.StepDecreases | crates/goose-local-inference/src/lib.rs:726-880 | every step of every task lowers the measure, waking included |
| ModelSlotsProgress.RunsAreBounded | crates/goose-local-inference/src/lib.rs:726-880 | a run in which no new task starts is no longer than the measure of the state it starts in |
| ModelSlotsProgress.EveryTaskFinishes | crates/goose-local-inference/src/lib.rs:726-880 | once no new task starts, every schedule runs out of steps within the measure, and it has run out exactly when every stream and eviction is done (what a stream that is done has achieved: `ModelSlotsHistory.DoneIffServed`) |
| ModelSlotsHistory.DoneIffServed | crates/goose-local-inference/src/lib.rs:726-880 | over every run a stream that is done has generated, exactly unless its own send or load failed or it came to generate and found its slot unloaded |
| ModelSlotsHistory.UndisturbedStreamGenerates | crates/goose-local-inference/src/lib.rs:726-880 | a stream whose send and load succeed, and whose slot no other task empties after it saw it loaded, generates before it is done and leaves its slot loaded |
| ModelSlotsHistory.LoneStreamGenerates | crates/goose-local-inference/src/lib.rs:726-880 | the stream of a single request whose send and load succeed generates and leaves its slot loaded |
| ModelSlotsHistory.EitherOutcomeIsPossible | crates/goose-local-inference/src/lib.rs:758-830 | where a step can be taken, its send or load may succeed and may fail |
| ModelSlotsHistory.OnlyLoadersLoad | crates/goose-local-inference/src/lib.rs:785-833 | a slot becomes loaded only by a task of that slot whose own load succeeded before |
| ModelSlotsHistory.OnlyEvictionsAndLoadersEmpty | crates/goose-local-inference/src/lib.rs:228-235 | a loaded slot is emptied only by an eviction of its own model, or by the loader of another slot |
| ModelSlotsHistory.EvictionEmptiesItsModel | crates/goose-local-inference/src/lib.rs:228-235 | when an eviction is over, every slot of its model that was there when it started has been seen not loaded since |
| ModelSlotsHistory.EveryWaitHasItsReason | crates/goose-local-inference/src/lib.rs:726-757 | a stream waits for the cold lock only after it found its slot empty, for a notification only after it found it loading, and loads only after it found it empty under the cold lock |
| JsonScan.RepairTruncatedJson | crates/goose-provider-types/src/json.rs:29-75 | the loop over flags and closer stack computes the repair the lemmas below are about |
| JsonScan.LooksTruncated | crates/goose-provider-types/src/json.rs:129-167 | the detector reports exactly unclosed strings, pending escapes, owed closers and mismatched closers, trailing whitespace aside |
| JsonScan.EscapeControlChars | crates/goose-provider-types/src/json.rs:91-121 | the escaping loop computes the character-wise escape the lemmas below are about |
| JsonScan.TrimIsIrrelevant | crates/goose-provider-types/src/json.rs:129-167 | trailing whitespace never decides whether a text looks truncated |
| JsonScan.SuffixCloses | crates/goose-provider-types/src/json.rs:63-75 | what the repair appends closes whatever the scanner has open, without a mismatched closer |
| JsonScan.RepairCompletes | crates/goose-provider-types/src/json.rs:29-75 | a repaired text passes the truncation test exactly when the original has no mismatched closer |
| JsonScan.RepairIsIdempotent | crates/goose-provider-types/src/json.rs:29-75 | repairing twice is repairing once |
| JsonScan.TruncatedMeansRepairAdds | crates/goose-provider-types/src/json.rs:29-167 | a text looks truncated exactly when the repair adds to it or it has a mismatched closer |
| JsonScan.RepairIsShortest | crates/goose-provider-types/src/json.rs:29-75 | no completion that passes the truncation test is shorter than the repair |
| JsonScan.EscapeKeepsState | crates/goose-provider-types/src/json.rs:91-121 | escaping moves the scanner from any state as the text itself does |
| JsonScan.EscapeKeepsTruncation | crates/goose-provider-types/src/json.rs:91-167 | escaping never changes whether a text looks truncated |
| JsonScan.RepairEscapeCommute | crates/goose-provider-types/src/json.rs:9-121 | repairing an escaped text is escaping the repaired one |
| JsonScan.EscapeIsIdempotent | crates/goose-provider-types/src/json.rs:91-121 | no raw control character survives the escape, and a second escape changes nothing |
| JsonEscapes.EscapedLiteralMeansTheSame | crates/goose-provider-types/src/json.rs:77-121 | the escape of a string literal with raw control characters is a valid literal that stands for the same characters, item by item |
| JsonText.LevelValue | crates/goose-provider-types/src/json.rs:129-167 | scanning any serialised value, with any insignificant whitespace, ends where it started and never closes a bracket that was open before |
| JsonText.InsideContainer | crates/goose-provider-types/src/json.rs:129-167 | strictly inside a serialised object or array its own closer is still owed first |
| JsonText.WholeTextIsNotTruncated | crates/goose-provider-types/src/json.rs:29-167 | no serialised value looks truncated, and the repair leaves it alone |
| JsonText.PrefixTruncatedIffProper | crates/goose-provider-types/src/json.rs:129-167 | of the non-empty prefixes of a serialised object or array exactly the proper ones look truncated |
| ToolArguments.SafelyParseWithoutRepair | crates/goose-provider-types/src/json.rs:9-27 | on a text that does not look truncated only the text and its escaped form are tried |
| ToolArguments.NoInventedDelimiter | crates/goose-provider-types/src/json.rs:270-297 | whatever the parser, the decision depends on it only at the arguments, the unwrapped body and their escaped forms: no closing delimiter is ever invented |
| ToolArguments.TruncatedIsNeverCompleted | crates/goose-provider-types/src/json.rs:270-297 | an unwrapped text that looks truncated yields arguments exactly when it parses as it stands |
| ToolArguments.FirstTextThatParsesDecides | crates/goose-provider-types/src/json.rs:270-297 | the arguments are what the first of these texts that parses holds: the input, the unwrapped body, its escape and the escape of the input, the escapes only of texts that do not look truncated; there are none exactly when no text parses, and an empty input is an empty object |
| ToolArguments.UnwrapsWithinThreeEncodings | crates/goose-provider-types/src/json.rs:246-263 | a string is replaced by an object exactly when one lies within three encodings of it; every other value stays |
| NativeToolParsing.JsonCandidates | crates/goose-local-inference/src/native_tool_parsing.rs:91-137 | the nested scan returns the candidates in order: the whole text, then every braced and every bracketed piece |
| NativeToolParsing.MatchBracket | crates/goose-local-inference/src/native_tool_parsing.rs:101-131 | the inner loop finds how far the opening bracket reaches, or that it is never closed |
| NativeToolParsing.ScanStopsAtMatch | crates/goose-local-inference/src/native_tool_parsing.rs:101-131 | from the opening bracket of a serialised object or array the scan stops exactly at its own close, whatever its strings hold and whatever follows |
| NativeToolParsing.EmbeddedValueIsFound | crates/goose-local-inference/src/native_tool_parsing.rs:91-137 | every serialised object or array that the parser accepts is among the candidates, whatever text surrounds it |
| NativeToolParsing.OnlyBracketedTextIsFound | crates/goose-local-inference/src/native_tool_parsing.rs:91-137 | every candidate is the parse of the whole text or of a piece that its two brackets delimit |
| NativeToolParsing.WholeTextComesFirst | crates/goose-local-inference/src/native_tool_parsing.rs:91-97 | the value of the whole trimmed text comes before all others |
| NativeToolParsing.FoundInOrder | crates/goose-local-inference/src/native_tool_parsing.rs:98-137 | of two values that open with the same kind of bracket the one that opens first is listed first |
| MediaMarkers.SplitMediaMarkerText | crates/goose-local-inference/src/lib.rs:417-438 | the loop over the rest of the text splits it as the lemmas below describe |
| MediaMarkers.ConvertTextMediaMarkers | crates/goose-local-inference/src/lib.rs:377-415 | every message's content is converted in place and independently |
| MediaMarkers.SplitIsMarkerFree | crates/goose-local-inference/src/lib.rs:417-438 | no text part that comes out of a split contains the marker |
| MediaMarkers.ConvertIsIdempotent | crates/goose-local-inference/src/lib.rs:377-415 | converting twice is converting once |
| MediaMarkers.SplitUndoesJoin | crates/goose-local-inference/src/lib.rs:417-438 | splitting the newline-join of a list with at least one marker, non-empty marker-free texts and no two adjacent texts gives the list back |
| MediaConversion.ConvertSpellsTheSame | crates/goose-local-inference/src/lib.rs:377-438 | whatever the content, the conversion leaves no marker in a text, and with at most one newline put back on each side of every marker it spells exactly what it was made from, other parts included |
| MediaConversion.ConvertChangesIff | crates/goose-local-inference/src/lib.rs:377-415 | a string is split exactly when it holds the marker; an empty marker changes nothing |
| Emulator.StreamingEmulatorParser.ProcessChunk | crates/goose-local-inference/src/tool_emulation.rs:148-240 | one call takes from the buffer exactly the pieces that the loop finds, emits what they stand for and leaves the rest; it terminates on buffer length and state (what the pieces stand for: `EmulatorLines` and `EmulatorBlocks`) |
| Emulator.StreamingEmulatorParser.Flush | crates/goose-local-inference/src/tool_emulation.rs:242-273 | what the end of the stream makes of the buffer in each state |
| Emulator.StreamingEmulatorParser.constructor | crates/goose-local-inference/src/tool_emulation.rs:140-146 | a new parser has an empty buffer in the normal state |
| EmulatorProperties.PiecesTileTheStream | crates/goose-local-inference/src/tool_emulation.rs:148-273 | in both modes and for every chunking the pieces taken from the buffer tile the stream: nothing is lost, repeated or reordered |
| EmulatorProperties.OnlyWholeLinesRun | crates/goose-local-inference/src/tool_emulation.rs:148-273 | outside code mode every command that runs is a whole line of the stream that starts with `$`, wherever the chunks are cut |
| EmulatorProperties.OnlyFencedCodeRuns | crates/goose-local-inference/src/tool_emulation.rs:148-273 | in code mode code is only ever taken between an opening fence and the first closing fence after it, or the end of the stream, wherever the chunks are cut (what then runs: `EmulatorBlocks.BlocksRunVerbatim`) |
| EmulatorProperties.TextLacksSought | crates/goose-local-inference/src/tool_emulation.rs:148-273 | no text handed on contains `\n$` outside code mode, or an opening fence in code mode |
| EmulatorProperties.HoldBackNeverCuts | crates/goose-local-inference/src/tool_emulation.rs:16-17 | whatever text follows, a `$` line or opening fence that it completes starts after what the hold-back rule released |
| EmulatorProperties.NothingVisibleIsLost | crates/goose-local-inference/src/tool_emulation.rs:148-273 | outside code mode the output shows exactly the stream's non-whitespace characters, with a `$` for every command, dropped empty ones included |
| EmulatorProperties.EveryDollarLineRuns | crates/goose-local-inference/src/tool_emulation.rs:148-273 | in particular, when every chunk is one line the commands that run are exactly the non-empty `$` lines, in order |
| EmulatorProperties.ChunksDecideWhatRuns | crates/goose-local-inference/src/tool_emulation.rs:148-240 | a list of chunks for which not every `$` line runs: two `$` lines that start the stream in one chunk run only the second; in two chunks both run |
| EmulatorLines.WhichLinesRun | crates/goose-local-inference/src/tool_emulation.rs:148-273 | for every stream and every chunking, a `$` line is taken as a command exactly as the chunks say: at the start of the stream, or right after a `$` line that was taken, only if it starts a chunk without a second `$` line; anywhere else always |
| EmulatorLines.AllLinesRunIff | crates/goose-local-inference/src/tool_emulation.rs:148-273 | every `$` line is taken exactly when each one that starts the stream or directly follows another starts a chunk without a second one |
| EmulatorLines.ChunksRunTheseCommands | crates/goose-local-inference/src/tool_emulation.rs:148-273 | for every chunking the commands that run are those of the `$` lines that the chunks let run, each the whole line, in order, and nothing else |
| EmulatorBlocks.BlocksRunVerbatim | crates/goose-local-inference/src/tool_emulation.rs:148-273 | in code mode, for every chunking, what runs is in order the text that stands in the stream at the blocks taken, verbatim up to the first closing fence or trimmed at the end of the stream, and the commands of the `$` lines taken; blank ones run nothing |
| EmulatorBlocks.BlocksFollowFences | crates/goose-local-inference/src/tool_emulation.rs:148-273 | in both modes a block is taken right after each opening fence taken and nowhere else, and after text up to a `$` line that line is taken |
| EmulatorBlocks.NothingIsLostInCodeMode | crates/goose-local-inference/src/tool_emulation.rs:148-273 | in code mode the output with its fences put back shows exactly the stream's non-whitespace characters, in order |
| EmulatorBlocks.TextIsVerbatim | crates/goose-local-inference/src/tool_emulation.rs:148-273 | in both modes every text shown is a stretch of the stream as it stands there, up to the fences after it |
| EmulatorBlocks.TextIsShownPromptly | crates/goose-local-inference/src/tool_emulation.rs:16-17 | after a chunk, text that does not end a line waits no longer than an opening fence or the start of a `$` line can need |
| Downloads.DownloadOneFile | crates/goose-download-manager/src/lib.rs:425-658 | the HEAD, the retry loop and the body loop on a shard's files end as the function of the script of server answers says, for the outcome, the two files and the count (when it fails, is cancelled or is done: `DownloadOutcomes`) |
| Downloads.WriteBody | crates/goose-download-manager/src/lib.rs:525-634 | a success answer restarts the file if its range was ignored, learns the total, cuts the partial file to the bytes that count and appends the chunks |
| Downloads.DownloadFilesSequentially | crates/goose-download-manager/src/lib.rs:345-422 | the scan of what is on disk and the loop over distinct shards end as the function over all shards says |
| DownloadProperties.ResumeIsCorrect | crates/goose-download-manager/src/lib.rs:425-658 | against an honest server, whatever fails and wherever it stops, the partial file stays a prefix of the remote file, a destination appears only when done, and it is the whole file exactly unless the last answer was a complete 206 that stopped short |
| DownloadProperties.ShortPartialLosesTheTail | crates/goose-download-manager/src/lib.rs:619-656 | such a 206 does leave a destination without its tail |
| DownloadProperties.AtMost22Requests | crates/goose-download-manager/src/lib.rs:468-656 | whatever the server does, one file takes at most 2 * (MAX_RETRIES + 1) requests besides those without a range that are answered 416 |
| DownloadProperties.TwentyTwoRequestsHappen | crates/goose-download-manager/src/lib.rs:468-656 | an honest server can bring about all 22, without one such 416 |
| DownloadProperties.BareRefusalsAreEndless | crates/goose-download-manager/src/lib.rs:497-505 | a server that answers every request without a range with 416 is asked as often as it does so |
| DownloadProperties.CountIsExact | crates/goose-download-manager/src/lib.rs:425-658 | the cumulative count is always the other shards' bytes plus this file's, so no subtraction of this file's bytes saturates, and it is what is on disk unless the download is cancelled or a removal fails |
| DownloadProperties.SessionSaturatesIff | crates/goose-download-manager/src/lib.rs:381-588 | the count falls below `bytes_at_start`, fixed once over all shards, exactly when over all shards so far more bytes were discarded (ranges ignored, 416s, oversized partials) than received |
| DownloadProperties.RestartSaturatesSession | crates/goose-download-manager/src/lib.rs:381-588 | an honest server that ignores the range of a single shard brings that about |
| DownloadProperties.TotalIsExact | crates/goose-download-manager/src/lib.rs:397-422 | over all shards the count is the bytes on disk, when done and wherever it stops except at a cancellation |
| DownloadProperties.AllFilesArrive | crates/goose-download-manager/src/lib.rs:397-422 | when the sequential download is done every destination equals its remote file, and wherever it stops no destination holds anything else |
| DownloadOutcomes.FailsIff | crates/goose-download-manager/src/lib.rs:468-656 | a download fails exactly when the answer that ends it is a refusal that is not transient, or a lost connection, a transient refusal or a broken body that comes after MAX_RETRIES such failures; every earlier one was tried again |
| DownloadOutcomes.CancelledIff | crates/goose-download-manager/src/lib.rs:468-656 | it is cancelled exactly when the last turn saw a cancellation, before the request, with a chunk or asleep, and no earlier turn did |
| DownloadOutcomes.CancelledFileIsRemoved | crates/goose-download-manager/src/lib.rs:469-472 | a cancellation seen before a request or with a chunk takes the partial file away if it can be removed, one seen asleep leaves it |
| DownloadOutcomes.CompleteBodyEnds | crates/goose-download-manager/src/lib.rs:468-658 | the first complete body ends the download as done |
| DownloadOutcomes.RecoveryIsDone | crates/goose-download-manager/src/lib.rs:468-656 | after at most MAX_RETRIES failures, and any refused ranges, a complete body ends the download as done, whatever was on disk |
| DownloadOutcomes.RecoveryIsWhole | crates/goose-download-manager/src/lib.rs:468-656 | and with an honest server whose complete body runs to the end, the destination is the remote file |
| DownloadOutcomes.RefusedRangeOfWholeFileIsDone | crates/goose-download-manager/src/lib.rs:497-505 | once everything is on disk and the size is known, from HEAD or from any answer, a 416 ends the download with the whole file |
| DownloadOutcomes.AllFilesAreDone | crates/goose-download-manager/src/lib.rs:397-422 | when every server answers in the end and nothing is cancelled, the whole download is done |
| DownloadOutcomes.EndsAsTheFirstUnfinished | crates/goose-download-manager/src/lib.rs:397-422 | a download that is not done ended as the first shard that is not, and the shards after it are untouched |
| DownloadRegistry.DownloadManager.StartDownload | crates/goose-download-manager/src/lib.rs:221-251 | a start is refused, leaving the map alone, exactly while the entry is downloading or cancelled with its task not exited; otherwise a fresh entry replaces it |
| DownloadRegistry.DownloadManager.ReserveDownload | crates/goose-download-manager/src/lib.rs:126-142 | a reservation is refused under the same condition, and otherwise stores the given record |
| DownloadRegistry.DownloadManager.CancelDownload | crates/goose-download-manager/src/lib.rs:152-164 | a cancel changes the status of an existing entry and nothing else |
| DownloadRegistry.DownloadManager.FinishDownload | crates/goose-download-manager/src/lib.rs:277-290 | success marks the entry completed and its task exited, also after a cancel (over runs: `DownloadEntries.EntryAfterExit`) |
| DownloadRegistry.DownloadManager.FailDownload | crates/goose-download-manager/src/lib.rs:291-306 | failure keeps a cancelled status, records the error and marks the task exited |
| DownloadRegistry.DownloadManager.ClearCompleted | crates/goose-download-manager/src/lib.rs:660-671 | only an entry that is terminal and whose task has exited is removed |
| DownloadRegistry.NextKeepsInv | crates/goose-download-manager/src/lib.rs:126-308 | every call and every task step keeps: no two live tasks of one model, and a live task's entry is downloading, or cancelled with the task not exited |
| DownloadRegistry.OneTaskPerModel | crates/goose-download-manager/src/lib.rs:126-308 | over every interleaving no model has two live tasks, and a live task's entry keeps every other start and reservation out |
| DownloadRegistry.RefusedExactlyWhile | crates/goose-download-manager/src/lib.rs:126-308 | over every interleaving, a model is refused exactly while a task of it is live, or its last admission was a start whose directory could not be created, or a reservation whose record, with the cancel if one came, keeps it refused |
| DownloadRegistry.CancelledReservationBlocks | crates/goose-download-manager/src/lib.rs:126-164 | a reservation that is cancelled leaves its model refused with no task behind it |
| DownloadRegistry.FailedDirectoryBlocks | crates/goose-download-manager/src/lib.rs:253-262 | a directory that cannot be created leaves its model refused with no task behind it, even after a cancel and a clear |
| DownloadEntries.EntryWhileLive | crates/goose-download-manager/src/lib.rs:221-306 | over every interleaving, while a task lives its entry is downloading, or cancelled once a cancel has come, without an error |
| DownloadEntries.EntryAfterExit | crates/goose-download-manager/src/lib.rs:275-308 | after a task has exited and until the next call for its model, the entry is completed without an error exactly when its files arrived, even after a cancel; or else it carries the error it failed with and is cancelled if a cancel came while it lived and failed if none did |
| DownloadEntries.CompletedIffSucceeded | crates/goose-download-manager/src/lib.rs:277-290 | a model is shown as completed exactly when its task ran to the end |
| DownloadEntries.ClearsOnlyAfterExit | crates/goose-download-manager/src/lib.rs:660-671 | clearing takes an entry away once its task has ended by itself, and never while it lives |
| ConversationLoops.FixToolCalling | crates/goose-provider-types/src/conversation.rs:426-519 | the two loops over messages, the pending set and the removal by index compute the pass that the pairing lemmas are about |
| ConversationLoops.ScreenMessage | crates/goose-provider-types/src/conversation.rs:430-498 | the blocks to remove, the issues and the unanswered requests after one message are those of a block-by-block reading |
| ConversationLoops.RemoveIndices | crates/goose-provider-types/src/conversation.rs:495-497 | removing ascending indices last to first removes exactly those blocks |
| ConversationLoops.MergeMessages | crates/goose-provider-types/src/conversation.rs:533-557 | the in-place merge onto the last message computes the merge that the merging lemmas are about |
| ConversationLoops.DedupeSignedThinking | crates/goose-provider-types/src/conversation.rs:589-622 | the loop with the list of seen blocks computes the pass that the stability lemmas are about |
| ConversationLoops.FixLeadTrail | crates/goose-provider-types/src/conversation.rs:663-681 | one leading and one trailing assistant message are cut, in that order |
| ConversationRepair.PassShrinks | crates/goose-provider-types/src/conversation.rs:296-681 | every repairing pass reports nothing exactly when it changes nothing, and otherwise makes the list smaller in messages, blocks, text and empty tool results (what each changes: `Grains` and `RepairContents`) |
| ConversationRepair.NoIssueIffUnchanged | crates/goose-provider-types/src/conversation.rs:273-294 | repair reports no issue exactly when it returns its input |
| ConversationRepair.NewAcceptsFixedPoints | crates/goose-provider-types/src/conversation.rs:196-208 | a conversation is accepted exactly when repair would leave it as it is |
| ConversationRepair.RepairConverges | crates/goose-provider-types/src/conversation.rs:273-294 | repeating the repair reaches a list without issues after at most one round more than the measure |
| ConversationRepair.RepairedStays | crates/goose-provider-types/src/conversation.rs:273-294 | once repair has nothing to report, repeating it changes nothing |
| ToolPairing.AcceptedMatch | crates/goose-provider-types/src/conversation.rs:426-519 | on distinct request ids the two loops leave requests and responses that match one to one, in order |
| ToolPairing.FixToolsPairs | crates/goose-provider-types/src/conversation.rs:426-519 | the pass leaves every response after an open request with its id and no request open |
| ToolPairing.LeadTrailKeepsPairing | crates/goose-provider-types/src/conversation.rs:663-681 | cutting the ends of a paired list keeps the pairing exactly when no request goes with the first message |
| ToolPairing.RepairPairsTools | crates/goose-provider-types/src/conversation.rs:273-294 | on distinct request ids repair leaves a bijection between requests and responses, exactly unless the list that reaches the cut starts with an assistant message that holds a request |
| ToolPlaces.FixToolsIsABijection | crates/goose-provider-types/src/conversation.rs:426-519 | on distinct request ids each remaining request has its one response in exactly one later user message, and each remaining response its request in exactly one earlier assistant message |
| ToolPlaces.RepairPairsMessages | crates/goose-provider-types/src/conversation.rs:273-294 | the same for the result of the whole repair |
| ToolPlaces.RepairPutsRolesRight | crates/goose-provider-types/src/conversation.rs:430-498 | after repair no request, confirmation or thinking sits in a user message and no response or frontend request in an assistant message, whatever the input |
| Merging.MergingIsConfluent | crates/goose-provider-types/src/conversation.rs:523-557 | merging for a request after merging for storage gives what merging for a request gives |
| Merging.RequestFormAlternates | crates/goose-provider-types/src/conversation.rs:529-531 | in the request form adjacent messages have different effective roles |
| Merging.MergeStaysIffSeparated | crates/goose-provider-types/src/conversation.rs:533-557 | merging leaves a list alone exactly when no two adjacent messages join |
| Merging.MergeIsIdempotent | crates/goose-provider-types/src/conversation.rs:533-557 | both forms are idempotent |
| Merging.MergeKeepsBlocks | crates/goose-provider-types/src/conversation.rs:533-557 | both forms keep every block with its role, in order |
| Merging.StoredFormAlternates | crates/goose-provider-types/src/conversation.rs:523-557 | in the form for storage adjacent messages differ in effective role, user visibility or turn context |
| Merging.EffectiveRoleMeans | crates/goose-provider-types/src/conversation.rs:624-661 | a message takes a tool turn exactly when it is a user message with a tool response among its blocks |
| Grains.PlaceholderIffNothingToShow | crates/goose-provider-types/src/conversation.rs:384-424 | exactly the successful tool results without an image, a non-empty text or a non-empty resource get the placeholder appended; every other block of every message stays |
| Grains.TrimTakesTrailingWhitespace | crates/goose-provider-types/src/conversation.rs:336-360 | of each text in an assistant message exactly the trailing whitespace goes; user messages stay |
| Grains.MergeTextKeepsGrains | crates/goose-provider-types/src/conversation.rs:296-334 | merging text changes no character, its audience or its order, and no other block |
| Grains.MergeKeepsGrains | crates/goose-provider-types/src/conversation.rs:533-557 | merging messages for storage changes no character or block, nor the role and flags with which it is said |
| RepairContents.ToolsLeaveOut | crates/goose-provider-types/src/conversation.rs:426-519 | for every list the tool pass removes exactly the blocks in the wrong role, the responses to no open request and the requests of ids still open at the end, and changes nothing else |
| RepairContents.DedupeLeavesOut | crates/goose-provider-types/src/conversation.rs:589-622 | dedupe removes exactly the signed thinking that an assistant message said before, and changes nothing else |
| RepairContents.RepairKeepsWhatIsSaid | crates/goose-provider-types/src/conversation.rs:273-294 | up to the cut, for every list, repair keeps every character and block in order with its role, flags and audience, but for whitespace in assistant text, those tool blocks and that thinking, and changes only tool results with nothing to show |
| RepairContents.BlocksComeFromTheInput | crates/goose-provider-types/src/conversation.rs:273-294 | every block of the result other than text is one of the input said with the same role and flags, as it was or, for a result with nothing to show, with the placeholder |
| RepairIssues.ToolIssuesNameWhatGoes | crates/goose-provider-types/src/conversation.rs:426-519 | the tool pass reports, in order, every block in the wrong place and every response without a request, then every request without a response, each with its id, and then nothing but empty messages |
| RepairIssues.PlaceholderIssuesNameTheResults | crates/goose-provider-types/src/conversation.rs:399-424 | filling reports exactly the results that it fills, by their ids and in order |
| RepairHeaders.MergedHeaders | crates/goose-provider-types/src/conversation.rs:533-557 | of messages that join, the merged one keeps the id, flags and usage of the first |
| RepairHeaders.RepairKeepsHeaders | crates/goose-provider-types/src/conversation.rs:273-294 | the messages of the result carry ids, flags and usage of messages of the input, in the input's order; only the placeholder is new |
| ConversationShape.RepairShapesUniformLists | crates/goose-provider-types/src/conversation.rs:233-234 | when all messages agree on user visibility and turn context the result is not empty, starts and ends with a user message and alternates effective roles |
| ConversationShape.AlternatesIffNoClash | crates/goose-provider-types/src/conversation.rs:533-681 | for any list the effective roles of the result alternate exactly when no two adjacent messages of one effective role that differ in a flag survive the cut |
| ConversationShape.EndsAreUserIffSingle | crates/goose-provider-types/src/conversation.rs:663-693 | for any list the result has user messages at both ends exactly when no two assistant messages stand at an end of the list that reaches the cut |
| ShadowMap.RepairDoesNotGrow | crates/goose-provider-types/src/conversation.rs:273-294 | repair returns at least one message and at most as many as it was given, or the placeholder, and keeps agent visibility |
| ShadowMap.ShadowMapRefines | crates/goose-provider-types/src/conversation.rs:235-271 | what the agent sees of the result is exactly the repair of what it saw, if and only if it saw anything |
| ShadowMap.HiddenMessagesSurvive | crates/goose-provider-types/src/conversation.rs:262-268 | messages the agent does not see survive unchanged and in order |
| ShadowMap.ConversationUnchangedIffNoIssue | crates/goose-provider-types/src/conversation.rs:235-271 | with something visible, no issue is reported exactly when the conversation is returned as it was |
| ShadowMap.EveryMessageKeepsItsPlace | crates/goose-provider-types/src/conversation.rs:235-271 | up to any point of the conversation stand the hidden messages up to there and as many repaired ones as there were visible ones, if there are that many |
| RepairStability.FivePassesStayClean | crates/goose-provider-types/src/conversation.rs:273-294 | merging messages, trimming text, filling tool results, dropping repeated thinking and adding the placeholder never have anything left to do in a repaired list |
| TouchingTexts.KeptTouchIff | crates/goose-provider-types/src/conversation.rs:426-622 | removing blocks other than texts brings mergeable texts together exactly where all blocks between two of them go |
| TouchingTexts.MergesIffTouching | crates/goose-provider-types/src/conversation.rs:296-334 | merging text shortens a message exactly when it has two adjacent mergeable texts |
| TouchingMessages.BeforeDedupeMarked | crates/goose-provider-types/src/conversation.rs:296-557 | in the list that reaches dedupe the assistant messages with mergeable texts side by side are exactly those in which `fix_tool_calling` removed what stood between them or two joined messages met in them |
| TouchingMessages.DedupedAt | crates/goose-provider-types/src/conversation.rs:589-622 | of each assistant message dedupe takes exactly the signed thinking that stands earlier in it or in an earlier assistant message |
| ToolFlow.LoopsFlowIff | crates/goose-provider-types/src/conversation.rs:426-519 | whatever the ids, the tool pass leaves itself nothing to do exactly when no request is made again without an answer after it was answered |
| RepairGuards.CutFlowsIff | crates/goose-provider-types/src/conversation.rs:663-671 | the cut at the front keeps that exactly when every request it takes along is made again before anything answers it |
| RepairGuards.DistinctRequestsSettle | crates/goose-provider-types/src/conversation.rs:426-519 | when requests have distinct ids this comes down to the condition under which they stay paired |
| RepairGuards.OneRunIsEnoughIff | crates/goose-provider-types/src/conversation.rs:273-294 | a second run reports nothing exactly when no branch of the first left it work: no surviving message has texts that a join, the tool pass or dedupe brought together, none was emptied by dedupe, no two assistant messages stand at an end before the cut, no answered request is made again in vain, and requests cut off at the front are made again |
| RepairWitnesses.ConsecutiveTextsNeedTwoRuns | crates/goose-provider-types/src/conversation.rs:533-557 | two assistant texts in a row end up side by side in one message, and the next run reports them |
| RepairWitnesses.OrphanBetweenTextsNeedsTwoRuns | crates/goose-provider-types/src/conversation.rs:500-515 | so do two texts around a request without a response |
| RepairWitnesses.RepeatedThinkingNeedsTwoRuns | crates/goose-provider-types/src/conversation.rs:589-622 | a message that only repeats signed thinking is left empty, and the next run reports it |
| RepairWitnesses.CutRequestLeavesResponse | crates/goose-provider-types/src/conversation.rs:663-671 | a leading assistant message takes its request along, and the response stays without one |
| RepairWitnesses.RepeatedIdLeavesResponse | crates/goose-provider-types/src/conversation.rs:426-519 | with a repeated request id a response can lose its request, so the pairing needs distinct ids |
| RepairWitnesses.MixedFlagsLeaveAssistantFirst | crates/goose-provider-types/src/conversation.rs:663-671 | with mixed flags the result can start with an assistant message, so the shape needs uniform ones |
| Streaming.Conversation.Push | crates/goose-provider-types/src/conversation.rs:50-120 | what a pushed message does to the list: metadata for an earlier message, growth of the last one, or a new one |
| Streaming.Conversation.Extend | crates/goose-provider-types/src/conversation.rs:138-145 | extending pushes one by one |
| Streaming.CollectStream | crates/goose-provider-types/src/base.rs:354-417 | the loop over a provider's stream ends as the fold over its items says, with its error and no-message cases |
| Streaming.PushAgreesWithCollect | crates/goose-provider-types/src/conversation.rs:75-116 | pushing the single-block, non-thinking chunks of one id adds one message whose content is what `collect_stream` makes of them |
| Streaming.StreamedTextIsConserved | crates/goose-provider-types/src/conversation.rs:52-116 | however a message is cut into chunks of its id, with metadata-only chunks among them, its text and its thinking arrive whole and in order |
| Streaming.SignedBlocksStayClosed | crates/goose-provider-types/src/conversation.rs:52-112 | a signed thinking block keeps its signature, only grows at its end, and does not change while no chunk carries that signature |
| StreamLaws.StreamedContentIsConserved | crates/goose-provider-types/src/conversation.rs:52-116 | however a message is cut into chunks of its id, every character with its audience, all thinking and every other block arrive in order, and no other message changes |
| StreamLaws.StreamedMetadataArrives | crates/goose-provider-types/src/conversation.rs:52-80 | the output limit is marked exactly when the message or a chunk has it, the usage is the last that came, and nothing else of the message changes but its content |
| StreamLaws.MetadataFindsItsMessage | crates/goose-provider-types/src/conversation.rs:52-73 | metadata without content changes only the last message that suits it; if none does, a reached limit is kept in a message of its own that the agent does not see |
| StreamLaws.ContentGoesToTheEnd | crates/goose-provider-types/src/conversation.rs:75-119 | a message with content grows the last one exactly when they share an id, and else is added as it is |
| StreamLaws.FirstFailureIsReturned | crates/goose-provider-types/src/base.rs:354-366 | the first failing item ends the collection with its error |
| StreamLaws.CollectsEverything | crates/goose-provider-types/src/base.rs:354-417 | without a failure the collected message is the first with the content of all in order, the usage is the last, and it is an error exactly when there is neither |

## Left out

- Slots as objects updated in place: the runtime is modelled on values, as a transition system, because its claims are about interleavings; aliasing of slot handles is not captured.
- The notification and the slot update it follows, both under the slot lock, are one step of the transition system.
- Loads, generations and channel sends that never return; a panic while a lock is held.
- `is_model_loaded` and `loaded_model_ids`: they only read slots.
- The JSON parser and the stripping of Markdown or XML wrappers are parameters of `ToolArguments` and `NativeToolParsing`; what serde_json accepts is not modelled.
- Error texts (`truncation_error_message`, issue strings, snippets): issues are kept as constructors with their ids.
- Fixed-width integers: `depth` in the bracket scan, byte counts and totals are unbounded.
- NativeToolParsing.MatchBracket: a scan deeper than an `i32` can count is not modelled, as no text in memory reaches it.
- The text of a `media_marker` part, which is always the marker being converted, and JSON members of a part other than its type and text.
- Local file system errors other than failing removals, and creating the parent directories inside `DownloadOneFile`.
- The status of the HEAD answer, which the code does not check: an error page with a length would be taken for the file's size, so the theorems assume that the reported size is the file's or missing.
- Success statuses other than 200 and 206, and a close-delimited 200 whose connection is cut without an error.
- Removing the partial files after a failed download (lines 292-295), and two shards that share a path.
- `total_bytes`, percent, speed and estimated time: hints in floating point.
- External calls of `set_progress` and `update_progress`; a reservation's record is arbitrary.
- Back-off delays: only whether a cancellation is seen while sleeping.
- Creation times of messages, which the placeholder takes from the clock; block annotations other than the audience; payloads of tool calls, images and notifications are opaque.
- `extract_text_from_resource` and Unicode sanitising: a resource is what the extraction makes of it.
- The default usage and the empty message that `collect_stream` returns when one of them is missing stand as their absence.
- Streaming.PushAgreesWithCollect: does not compare thinking blocks or metadata, which `collect_stream` never merges.
- Prompt building, message formats, tool-call messages built from emulator actions, model registry, search and HTTP clients.
