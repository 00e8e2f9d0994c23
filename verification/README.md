# Verified models of the interview assistant

Dafny models of the parts of this repository whose correctness depends on
orderings, cuts and in-place updates, with proofs that hold for every input,
every chunking, every interleaving and every run. `dafny verify dfyconfig.toml`
checks everything.

| files | what they model |
|---|---|
| `Text.dfy` | strings and sequences: splitting, joining, searching, trimming |
| `EventStream*.dfy` | the incremental server-sent-event decoder of the web client, in line mode and in event mode, and its round trips with the framing of the servers and the escaping of the retrieval chat |
| `PcmWorklet.dfy` | the microphone worklet: resampling, 16-bit conversion, re-chunking |
| `AgentMemory.dfy`, `AgentMerge.dfy` | the agent's working memory and the merge of tools that ran in parallel, on values and on mutable dictionaries |
| `AgentGraph.dfy`, `AgentRuns.dfy`, `AgentTurns.dfy`, `AgentSteps.dfy` | the agent graph as a transition system, what holds in every run of it, what an answer does between two turns, and what single steps and rounds leave behind |
| `EvaluationGraph.dfy`, `EvaluationScores.dfy`, `EvaluationSummary.dfy` | batch evaluation under a semaphore, the merge by position and which evaluation ends up at which question, the clean-up of summary lists |
| `RagAgent.dfy`, `FirstOccurrences.dfy` | the self-correcting retrieval loop and order-preserving deduplication |
| `ChunkPlayback.dfy`, `HistoryRebuild.dfy`, `Polling.dfy` | client-side state machines: audio playback, transcript rebuild, polling with backoff |

## How the models are built

**Event stream.** A decoder that calls back while it reads is split into what is
*parsed* (`ParseEvents`, `ParseLines`: a list of blocks for a list of chunks) and
what is *delivered* (`Deliver`: the blocks up to the first that raises). The loops
of the source are the methods of `EventStreamReader`, proved equal to that
composition. The business-error test is an arbitrary predicate on contents, and
unescaping, where a client asks for it, maps each delivered content (`Handed`). The
main facts are: the data contents of the blocks, end to end, depend on the text
alone, also when a chunk ends between CR and LF; message boundaries do not.
`ChunkingIndependentIff` says for every text, whatever its line ends, whether they do:
a scan of its lines follows everything a decoder may hold in front of each line, and
the chunking makes no difference exactly if all of it agrees where a run of lines
ends. Everything the scan holds can be brought about by some chunks
(`EventStreamReached`), and where all of it agrees it yields the same (`Confluent`).
For texts without CR LF pairs that end with a blank line the condition is one on each
paragraph (`BoundariesChunkingIndependentIff`, `SteadyIffSafe`). The frames that the
servers write come through whole for every chunking, also when an error event ends the
stream (`FramingRoundTrip`). In the retrieval chat a piece of the answer comes back
behind the space of the framing, which that client asks to keep, and a backslash before
`n` or `r` in it comes back as a line end (`AnswerRoundTrip`). What the other clients are
handed, for their options, is in `EventStreamClients`.

**Agent graph.** The model and the tools are events. `Step` is the graph, `Run` a
sequence of events, and a round of tools completes in any order. The facts about
one turn are invariants of `Run`. Two of them come out as conditions rather than
promises:

* A chat model is called with well-formed messages in all runs of a turn exactly
  when the turn starts from well-formed messages (system messages aside). A turn comes
  to rest at its end or in a round that waits for an approval. At the end `finished` is
  set and the service refuses an answer; in the open round it accepts one. So every
  answer accepted at rest starts a turn whose first chat is malformed
  (`AnswerAtRest`, `NextTurnSeesWellFormedChatIff`), every turn within its limits has a
  run that comes to rest there (`OpenRoundReachable`), and no later turn sees a
  well-formed chat again (`AbandonedForGood`). Resuming the round instead completes
  it, and the chat stays well-formed. What does not turn on the chat holds for all of
  these turns: they end with a report, after at most thirty model calls
  (`TurnsEnd`, `ModelCallsBounded`).
* In `_merge_tool_results` the history is copied, but a patch without a matching
  record is adopted as a record object, so a later patch for the same index changes
  that effect's own dictionary. `AgentMerge.MergeToolResults` states both: the
  history's records keep their contents, and only adopted patches change.

**Evaluation.** Permits, holders, retries and degradations are a step system over
all batches. The merge goes by position, so it is right exactly when the reducer
hands over the results in batch order (`EvaluationAlignedIff`).

**Where the code and its comments differ** the models follow the code. The comment
of `_merge_tool_results` speaks of an `operator.add` reducer; the accumulators use
`_append_or_clear`, and emptying them is what keeps tool messages from being added
twice. The header of the agent says that a failed tool is retried or skipped; it is
never retried, and not silently skipped: its tool message reports the failure to the
model. Polling is described as doubling up to a ceiling; a base interval above the
ceiling is *shortened* by the first failure (`BackoffMonotoneIff`).

**Code that changes state** is modelled in that form: `PcmProcessor`,
`ChunkPlayer`, `PollingHook` and the record dictionaries are classes, and the
loops of the source are loops with invariants.

## Model

| member | source | states |
|---|---|---|
| EventStreamTheorems.EventDataConserved | frontend/src/api/stream.ts:180-269 | for every text, chunking and final decoder flush, the data contents of all parsed blocks, concatenated, are those of the lines of the whole CR/LF-normalised text |
| EventStreamTheorems.EventPayloadConserved | frontend/src/api/stream.ts:150-156 | with the empty joiner the delivered characters are exactly that payload; if a block raises, what was delivered plus the raising content is a prefix of it |
| EventStreamTheorems.EventChunkingIndependent | frontend/src/api/stream.ts:248-269 | two chunkings of one text that both end normally deliver the same characters |
| EventStreamTheorems.NormalizeCutData | frontend/src/api/stream.ts:216 | normalising both sides of any cut separately, also inside CR LF, carries the same data as normalising the whole |
| EventStreamTheorems.FlushOpenData | frontend/src/api/stream.ts:215-240 | one flush in mid-stream moves data from the buffer to the blocks and loses none, whatever arrives later |
| EventStreamTheorems.LineModeChunkingIndependent | frontend/src/api/stream.ts:165-178 | line mode parses every chunking of a text as the map over the lines of the whole text, so messages and the first error depend on the text alone |
| EventStreamExact.ChunkingIndependentIff | frontend/src/api/stream.ts:215-269 | for every text, whatever its line ends: every way to cut it into chunks, also with the replacement character that closing the character decoder can add, yields what the text yields as one chunk if and only if a scan of its lines passes; of whole blocks with their error events, or of the messages alone |
| EventStreamExact.UnsteadyText | frontend/src/api/stream.ts:216-232 | for every other text it produces chunks that yield something else than the text as one chunk |
| EventStreamReached.SuccReal | frontend/src/api/stream.ts:216-240 | the scan holds nothing too much: whatever it holds in front of a line can be brought about by some chunks, and so can all it holds behind the line |
| EventStreamScan.Confluent | frontend/src/api/stream.ts:215-240 | in a text that passes, everything the scan holds in one place goes on to yield the same blocks |
| EventStreamSteady.SteadyReads | frontend/src/api/stream.ts:248-269 | a text that passes yields for every chunking what it yields as one chunk |
| EventStreamSteady.FlushSplit | frontend/src/api/stream.ts:216 | in such a text one flush of a chunk that ends inside a CR LF pair, and then the rest with the line end that is left over, yield what reading the pair as one line end yields; the rest passes the scan too |
| EventStreamRows.OnceIsRest | frontend/src/api/stream.ts:217-240 | a text as one chunk yields one message per run of lines that are not blank and have data; only where it ends in the middle of a run whose first line has data and finds the buffer empty, that line is a message of its own |
| EventStreamExact.SteadyIffSafe | frontend/src/api/stream.ts:226-232 | for a text without CR LF pairs that ends with a blank line, the scan passes if and only if each paragraph is safe for early delivery |
| EventStreamExact.OpenDataLines | frontend/src/api/stream.ts:226-232 | two data lines at the open end of a text are two messages for every chunking, although they are not a safe paragraph |
| EventStreamBoundaries.BoundariesChunkingIndependentIff | frontend/src/api/stream.ts:215-240 | for every text without a CR LF pair whose last paragraph a blank line ends, every chunking yields the blocks of the text as one chunk if and only if, line ends normalised, no paragraph that opens with a data line has more data or names the error event (also with the line feed left over by an early delivery) |
| EventStreamBoundaries.UnsafeTextWitness | frontend/src/api/stream.ts:226-232 | for every other such text it produces chunks that move a message boundary |
| EventStreamBoundaries.SafeBoundaries | frontend/src/api/stream.ts:215-240 | that condition suffices for every text without a CR LF pair, whatever characters close it |
| EventStreamBoundaries.EarlyDelivery | frontend/src/api/stream.ts:226-232 | on a safe text, delivering a first data line early and reading on gives what reading the whole gives |
| EventStreamBoundaries.LeadingBlank | frontend/src/api/stream.ts:217-224 | a spurious blank line in front of a text changes nothing in what the text holds |
| EventStreamPairs.OneDataBoundaries | frontend/src/api/stream.ts:215-240 | for every text, whatever its line ends, and every chunking: if a blank line separates any two data lines, each data line is its own message; if also no line names the error event, the blocks are settled altogether |
| EventStreamPairs.SplitPairMovesBoundary | frontend/src/api/stream.ts:216 | a single cut inside a pair, between two chunks, can split one message into two |
| EventStreamFraming.FramesParsed | backend/app/application/rag/service.py:68-75 | the frames of one-line payloads, then at most one error frame, cut anywhere, parse in event mode to one block per payload and one that names the error |
| EventStreamFraming.FramesParsedInLineMode | backend/app/api/routers/agent_interview.py:63-65 | and to the same blocks in line mode, where the text of an error is one more message |
| EventStreamFraming.FramingRoundTrip | backend/app/api/routers/agent_interview.py:65 | round trip for both modes: one message per payload in order, the payload behind its space (or without it if trimmed); the first payload that is a business error is the failure and only those before it are delivered; otherwise all are, and then event mode fails with the error frame if there is one |
| EventStreamEscaping.UnescapePastEscape | backend/app/application/rag/service.py:64-65 | escaping one kind of line end commutes with unescaping the other |
| EventStreamEscaping.UnescapeReplaces | frontend/src/api/stream.ts:152-154 | unescaping replaces: pieces without the escape, joined by it, come out joined by the line end |
| EventStreamEscaping.EscapeRoundTripIff | backend/app/application/rag/service.py:64-65 | unescaping what the server escaped gives the text back if and only if it holds no backslash before `n` or `r`; in general those come back as line ends |
| EventStreamEscaping.EscapedIsOneLine | backend/app/application/rag/service.py:68-75 | an escaped text has no line end, so it fits the framing |
| EventStreamEscaping.AnswerRoundTrip | frontend/src/api/ragChat.ts:117-131 | the retrieval chat end to end, for every chunking: each piece arrives as one message behind the untrimmed space, equal to the piece if and only if it holds no escape; the first business error or the final error frame is the failure |
| EventStream.DeliverIs | frontend/src/api/stream.ts:205-212 | delivery hands over the joined contents of exactly the blocks before the first that raises |
| EventStreamReader.EmitContent | frontend/src/api/stream.ts:150-156 | one content ends the stream if it is a business error; otherwise it is handed over as it is, or unescaped if the client asks for it |
| EventStreamReader.BlankHasNoData | frontend/src/api/stream.ts:181-183 | skipping blank blocks never skips data |
| EventStreamReader.ProcessEventBlock | frontend/src/api/stream.ts:180-213 | the loop over a block's lines delivers the joined data lines, or raises on an error event or business error |
| EventStreamReader.FlushEventBuffer | frontend/src/api/stream.ts:215-240 | the separator loop, the early line and the final flush deliver the blocks of the parse, stop at the first that raises, and keep the right rest |
| EventStreamReader.ProcessLine | frontend/src/api/stream.ts:158-163 | one line of line mode |
| EventStreamReader.FlushLineBuffer | frontend/src/api/stream.ts:165-178 | all complete lines are delivered in order up to the first error and the open line is kept |
| EventStreamReader.FlushBuffer | frontend/src/api/stream.ts:242-246 | one flush followed by reading the rest is reading it all |
| EventStreamReader.ReadStream | frontend/src/api/stream.ts:248-269 | for every list of chunks the reader delivers what parsing those chunks yields, up to the first block that raises |
| EventStreamClients.DeliveredIs | frontend/src/api/stream.ts:150-156 | each message is literally the joined data of its block, unescaped only if the client asks for it, up to the first block that raises |
| EventStreamClients.FramesRead | frontend/src/api/stream.ts:131-269 | from server frames to messages, for any options that do not unescape, any of the line ends the mode knows and any chunks: each payload as it was sent, behind the framing's space unless the client trims it (line mode's default), up to the first business error; a final error frame fails event mode and is one more message in line mode |
| EventStreamClients.InterviewMessages | frontend/src/pages/AgentInterviewPage.tsx:45-58 | the interview page is handed each payload verbatim, escapes and all, behind one space |
| EventStreamClients.KnowledgeMessages | frontend/src/api/knowledgebase.ts:431-445 | the knowledge base page is handed exactly the payloads |
| EventStreamClients.JoinedLines | frontend/src/api/stream.ts:185-212 | several data lines of an event are one message, joined by line feeds or by what the client sets |
| EventStreamClients.ErrorInAnyCase | frontend/src/api/stream.ts:206 | an event is the error event exactly if its name is "error" in any mixture of cases |
| EventStreamClients.LastEventLine | frontend/src/api/stream.ts:188-193 | the last `event:` line of a block counts, trimmed |
| Text.LinesSplit | frontend/src/api/stream.ts:166 | splitting at line feeds: no piece has one, and joining gives the text back |
| Text.IndexOfFirst | frontend/src/api/stream.ts:217 | the index found is the first occurrence, and -1 means there is none |
| Text.TrimBlank | frontend/src/api/stream.ts:181 | only white space trims to nothing |
| Text.TrimIs | frontend/src/api/stream.ts:181 | trimming takes off exactly the white space at both ends |
| PcmWorklet.PositionInside | frontend/public/audio-worklet/pcm-processor.js:51-58 | every output position falls inside the input |
| PcmWorklet.OutputLengthNearest | frontend/public/audio-worklet/pcm-processor.js:52 | the output has the exact duration to the nearest sample and is never empty |
| PcmWorklet.Resample | frontend/public/audio-worklet/pcm-processor.js:46-64 | the in-place loop fills the output with the interpolated signal, and equal rates give the input itself |
| PcmWorklet.ResampledWithin | frontend/public/audio-worklet/pcm-processor.js:55-61 | no output sample leaves the range of the input samples |
| PcmWorklet.ResampledLine | frontend/public/audio-worklet/pcm-processor.js:55-61 | a straight line comes out as the same line, read at `i * sourceRate / targetRate` for output sample `i` and held at its end |
| PcmWorklet.ResampledBetween | frontend/public/audio-worklet/pcm-processor.js:55-61 | output sample `i` is the mean of the two input samples around `i * sourceRate / targetRate`, weighted by how near it is to each, and the last sample behind it |
| PcmWorklet.ResampledExact | frontend/public/audio-worklet/pcm-processor.js:55-61 | where `i * sourceRate` equals `k * targetRate` output sample `i` is input sample `k` |
| PcmWorklet.ResampledInside | frontend/public/audio-worklet/pcm-processor.js:55-58 | every output sample falls between two such samples or behind the last one |
| PcmWorklet.ResampledLength | frontend/public/audio-worklet/pcm-processor.js:51-52 | the number of output samples at the new rate is that of the input samples at the old one, to the nearest, and at least one |
| PcmWorklet.ScaledFits | frontend/public/audio-worklet/pcm-processor.js:74-75 | the scaled value of any number fits 16 bits, so storing it never wraps |
| PcmWorklet.ScaledMonotone | frontend/public/audio-worklet/pcm-processor.js:74-75 | conversion is monotone, keeps zero, and full scale reaches both ends |
| PcmWorklet.ScaledIs | frontend/public/audio-worklet/pcm-processor.js:74-75 | between the ends a sample is scaled to its size without the fraction, towards zero; beyond them it is clipped |
| PcmWorklet.Float32ToInt16 | frontend/public/audio-worklet/pcm-processor.js:71-78 | every sample of the output is the conversion of the input sample at its place |
| PcmWorklet.PcmIs | frontend/public/audio-worklet/pcm-processor.js:25-37 | a block adds one 16-bit sample, that of the same size, for each resampled one, in order; no input adds nothing |
| PcmWorklet.ChunksUnique | frontend/public/audio-worklet/pcm-processor.js:92-129 | full chunks with less than one left over are determined by the stream alone |
| PcmWorklet.ChunksCover | frontend/public/audio-worklet/pcm-processor.js:92-129 | the full chunks are the whole stream in order but fewer than one chunk of samples |
| PcmWorklet.ChunksGrow | frontend/public/audio-worklet/pcm-processor.js:92-129 | when the stream goes on, the chunks already posted stay the first ones |
| PcmWorklet.PcmProcessor.Enqueue | frontend/public/audio-worklet/pcm-processor.js:84-87 | adds the samples to the stream and keeps `pendingLength` the true sum |
| PcmWorklet.PcmProcessor.FillChunk | frontend/public/audio-worklet/pcm-processor.js:93-115 | the inner loop ends, also with empty heads, and fills a whole chunk with the first samples of the queue, in order |
| PcmWorklet.PcmProcessor.FlushChunks | frontend/public/audio-worklet/pcm-processor.js:92-129 | afterwards what was posted is exactly the full chunks of everything enqueued, fewer samples than one chunk remain, and the final reset changes nothing |
| PcmWorklet.PcmProcessor.Process | frontend/public/audio-worklet/pcm-processor.js:25-37 | one block of input extends the stream by its resampled, converted samples, and the posted chunks are those of the whole stream |
| AgentMemory.MergeConfluent | backend/app/graphs/adaptive_interview.py:605-653 | for every order of arrival the merge equals applying the effects one at a time in call order |
| AgentMemory.MergeOrderIndependent | backend/app/graphs/adaptive_interview.py:620-653 | two orders of arrival give the same memory |
| AgentMemory.SortedUnique | backend/app/graphs/adaptive_interview.py:620 | with distinct call indices there is one sorted arrangement |
| AgentMemory.HistoryIndicesKept | backend/app/graphs/adaptive_interview.py:626-633 | a merge keeps every earlier question index, in place, and keeps indices unique |
| AgentMemory.LastPatchWins | backend/app/graphs/adaptive_interview.py:626-633 | each key of a record ends as the last patch in call order wrote it, or as it was |
| AgentMemory.RecordsElsewhere | backend/app/graphs/adaptive_interview.py:625-633 | a merge leaves every record in its place, and unchanged if nothing patches it or an earlier record has its index; new records have patched indices that no record before them has |
| AgentMemory.MergedScores | backend/app/graphs/adaptive_interview.py:635-636 | each category's scores are extended by those of the effects, in call order |
| AgentMemory.MergedSettingsAndTrace | backend/app/graphs/adaptive_interview.py:621-643 | a setting is the last one written in call order, and the trace gains one entry per tool in call order |
| AgentMemory.AccountsBalance | backend/app/graphs/adaptive_interview.py:635-638 | effects that count a turn per score raise turn count and number of scores alike |
| AgentMerge.FindDict | backend/app/graphs/adaptive_interview.py:629 | finds the first record with the index |
| AgentMerge.CopyDicts | backend/app/graphs/adaptive_interview.py:609 | the merge works on fresh, distinct copies |
| AgentMerge.ApplyPatchInPlace | backend/app/graphs/adaptive_interview.py:626-633 | updates the first matching record in place or adopts the patch object |
| AgentMerge.ExtendScores | backend/app/graphs/adaptive_interview.py:635-636 | `setdefault(...).extend(...)` over a delta |
| AgentMerge.ApplyItem | backend/app/graphs/adaptive_interview.py:620-643 | one pass of the merge loop on mutable dictionaries is one effect applied to the memory |
| AgentMerge.MergeToolResults | backend/app/graphs/adaptive_interview.py:589-653 | the loop on mutable dictionaries computes the value-level merge, leaves the history's records as they were and changes only patch dictionaries it has adopted |
| AgentRuns.RoundConfluent | backend/app/graphs/adaptive_interview.py:552-653 | a whole round in any completion order, with any tools raising, leaves the memory of the calls run in call order and adds one tool message per call |
| AgentRuns.RoundAnswered | backend/app/graphs/adaptive_interview.py:599-605 | the tool messages of a complete round, in whatever chat, answer its calls as a multiset of ids |
| AgentRuns.StepKeepsShape | backend/app/graphs/adaptive_interview.py:377-383 | every transition keeps accumulators, step count, open request and report in order, whatever chat the turn starts from |
| AgentRuns.StepKeepsInv | backend/app/graphs/adaptive_interview.py:377-383 | and with a well-formed chat it keeps that too |
| AgentRuns.ModelSeesWellFormedChat | backend/app/graphs/adaptive_interview.py:462-477 | whenever the model may be called, in every run of every turn, both accumulators are empty; and if the turn starts from well-formed messages every earlier tool request is answered call for call |
| AgentRuns.ModelSeesWellFormedChatIff | backend/app/graphs/adaptive_interview.py:419-426 | that holds in all runs of a turn exactly when the starting messages, system messages aside, are well-formed |
| AgentTurns.NextChatIff | backend/app/application/agent/adaptive_service.py:105-150 | the chat that an accepted answer starts a turn from is well-formed if and only if no request for tools is open, that is, the answer did not come in the middle of a round |
| AgentTurns.NextTurnSeesWellFormedChatIff | backend/app/graphs/adaptive_interview.py:174-181 | so all model calls in all runs of the next turn see well-formed chats if and only if no request for tools was open |
| AgentTurns.AnswerAtRest | backend/app/application/agent/adaptive_service.py:107-109 | after every run of every turn that has come to rest, an answer is refused exactly at the end; in an open round it is accepted and the first chat of the next turn is malformed |
| AgentTurns.OpenRoundReachable | backend/app/graphs/adaptive_interview.py:712-740 | every turn within its limits, whatever chat it starts from, has a run that rests in an open round, where an answer is accepted |
| AgentTurns.AbandonedForGood | backend/app/graphs/adaptive_interview.py:419-426 | after an answer in the middle of a round no chat of that turn is well-formed, nor of any later turn, however many follow |
| AgentTurns.ChatAfterTurnIff | backend/app/graphs/adaptive_interview.py:490-500 | a finished turn leaves well-formed messages if and only if they do not end with tool calls, which takes the end signal in the same reply; no answer continues it |
| AgentSteps.AnswerKept | backend/app/application/agent/adaptive_service.py:111-126 | an accepted answer adds one record, of the current question, category and difficulty or their defaults, with the answer and no score yet, and the answer to the chat |
| AgentGraph.InitMessagesWellFormed | backend/app/graphs/adaptive_interview.py:419-426 | renewing the system message keeps well-formed chats well-formed |
| AgentSteps.ChatRenewed | backend/app/graphs/adaptive_interview.py:419-426 | a turn starts with one system message, the new one, at the front, and behind it exactly the messages of the chat that are no system messages, in order |
| AgentSteps.OneSystemMessage | backend/app/graphs/adaptive_interview.py:419-426 | in every run of every turn, from the first step on, the chat has one system message, at the front: the one made for this turn |
| AgentSteps.MemoryAtStart | backend/app/graphs/adaptive_interview.py:428-441 | a turn starts with the memory of the one before and a trace of its own |
| AgentSteps.StepLeaves | backend/app/graphs/adaptive_interview.py:377-383 | only a new turn takes messages away, only a merged round and the trace change the memory, only the end has a report |
| AgentSteps.ModelCalledIff | backend/app/graphs/adaptive_interview.py:449-460 | the model is called exactly below thirty steps and while questions are left: fewer than the limit, and for the last only if some category has fewer than two scores |
| AgentSteps.ReplyEnds | backend/app/graphs/adaptive_interview.py:490-503 | a reply with the end signal anywhere in it or without calls ends the turn; otherwise exactly its calls are run and it counts as a step |
| AgentSteps.NoQuestionLeft | backend/app/graphs/adaptive_interview.py:454-460 | a turn that starts with no question left calls no model and leaves history, scores and settings as they were |
| AgentRuns.TurnsEnd | backend/app/graphs/adaptive_interview.py:377-383 | in every run of every turn, whatever chat it starts from, each step lowers the pair of remaining steps and position in the graph, a step is possible until the end, and the end is reached finished and with a report |
| AgentRuns.MeasureDecreases | backend/app/graphs/adaptive_interview.py:377-383 | every transition lowers the pair of remaining steps and position in the graph |
| AgentRuns.Progress | backend/app/graphs/adaptive_interview.py:655-689 | a run can stop only at the end, finished and with a report |
| AgentRuns.ModelCallsBounded | backend/app/graphs/adaptive_interview.py:447-474 | every turn, whatever chat it starts from, calls the model at most thirty times |
| AgentRuns.RouteFinalizesIffFinished | backend/app/graphs/adaptive_interview.py:693-708 | after the agent node the router finalises exactly when `finished` is set and otherwise has calls to fan out |
| AgentRuns.TurnAccounting | backend/app/graphs/adaptive_interview.py:824-843 | a merge adds exactly the evaluations of the round to the turn count and as many scores; raised or unparsable tools add none; no other step changes either |
| AgentRuns.RunAccounting | backend/app/graphs/adaptive_interview.py:638-645 | in every reachable state the turn count is the number of recorded scores and has not fallen |
| AgentRuns.RoundRecorded | backend/app/graphs/adaptive_interview.py:824-840 | after a round, in any completion order, a record holds the score and feedback of the last call in call order that evaluates it, or is as before if none does, and each category has gained the scores of its evaluations in call order |
| AgentSteps.RoundSettings | backend/app/graphs/adaptive_interview.py:815-853 | after a round, in any completion order, question and category are those of the last question generated, in call order, and the difficulty that of the last adjustment; each is as before if there is none |
| AgentSteps.RoundCounted | backend/app/graphs/adaptive_interview.py:824-843 | the turn count has risen by the calls of `evaluate_answer` that came to an evaluation, and the trace by one entry per call, in call order |
| AgentSteps.EvaluatesIs | backend/app/graphs/adaptive_interview.py:824-828 | an evaluation counts only as the result of the tool of that name |
| AgentRuns.RunKeepsHistory | backend/app/graphs/adaptive_interview.py:609-633 | no run of a turn loses a question of the history or makes its indices ambiguous |
| AgentTurns.AnswerKeepsUniqueIff | backend/app/application/agent/adaptive_service.py:111-126 | keeping an answer leaves indices unique if and only if they were and none is the turn count |
| AgentTurns.NextAnswerUniqueIff | backend/app/application/agent/adaptive_service.py:111-126 | if the turn between two answers adds no record, the second gets an index of its own if and only if that turn evaluated something |
| AgentTurns.RepeatedIndexReachable | backend/app/application/agent/adaptive_service.py:111-126 | in every interview within its limits that can fail: the turn after an answer has a run that rests in an open round, and the next answer then has the index of the one before |
| AgentRuns.RunKeepsScored | backend/app/graphs/adaptive_interview.py:398-403 | no run leaves a category without scores, so the averages of the next context are defined |
| AgentGraph.TruncatedQuotient | backend/app/graphs/adaptive_interview.py:662 | the quotient with its fraction dropped, towards zero for either sign |
| AgentGraph.AverageBetween | backend/app/graphs/adaptive_interview.py:660-668 | reported averages lie between the scores they average |
| AgentSteps.ReportIs | backend/app/graphs/adaptive_interview.py:655-670 | the report holds all records, the average of exactly the scores they have, and the average of each category that has scores, each without its fraction |
| AgentGraph.FinalStepLargest | backend/app/graphs/adaptive_interview.py:672-681 | finalising appends one trace entry, one step above the largest before it |
| EvaluationGraph.SplitBatchesContiguous | backend/app/domain/services/evaluation.py:101-110 | the batches are nonempty, no longer than the batch size and cover the questions in order |
| EvaluationScores.BatchAt | backend/app/domain/services/evaluation.py:106-109 | every batch but the last is full, and batch `k` starts behind `k` full ones |
| EvaluationGraph.CallsBounded | backend/app/graphs/evaluation.py:132-148 | at most max(1, limit) batches are in a model call, and permits plus holders stay constant |
| EvaluationGraph.StepKeepsInv | backend/app/graphs/evaluation.py:212-287 | every step of every interleaving keeps permits, results and errors consistent |
| EvaluationGraph.TwoCallsEach | backend/app/graphs/evaluation.py:229-262 | each batch calls the model at most twice |
| EvaluationGraph.EffortDecreases | backend/app/graphs/evaluation.py:212-287 | every step of a batch uses up effort that no other step gives back |
| EvaluationGraph.RunLength | backend/app/graphs/evaluation.py:212-287 | no interleaving has more than five steps per batch |
| EvaluationGraph.Progress | backend/app/graphs/evaluation.py:212-287 | until every batch has settled some step is possible, so the semaphore cannot deadlock |
| EvaluationGraph.OneResultPerBatch | backend/app/graphs/evaluation.py:282-287 | at the merge there is one result per batch and as many errors as results without a report |
| EvaluationGraph.ResultsExplained | backend/app/graphs/evaluation.py:246-287 | every report has, item for item, the scores and feedbacks the model returned for that batch, in order and at their questions; a batch is degraded only if preparing failed, a call raised, or both answers were empty |
| EvaluationScores.ErrorsAreDegraded | backend/app/graphs/evaluation.py:282-287 | there is one error for each batch without a report, about that batch, in the order they settled |
| EvaluationGraph.MergeQuestionEvaluations | backend/app/domain/services/evaluation.py:113-132 | the nested loops give each batch its expected number of items, filling up with zeros |
| EvaluationGraph.MergedItemAt | backend/app/domain/services/evaluation.py:113-132 | position i of a batch holds that batch's i-th evaluation, or zero if degraded or too short |
| EvaluationGraph.MergedAlignedIff | backend/app/domain/services/evaluation.py:113-132 | with one result per batch, items stand at their questions' positions if and only if the results are in batch order |
| EvaluationGraph.EvaluationAlignedIff | backend/app/graphs/evaluation.py:289-298 | the same for any number of questions, batch size and interleaving; and in whatever order the results are merged, there is one item per question and the absolute indices are 0, 1, ... in some order |
| EvaluationScores.EvaluationOfQuestion | backend/app/graphs/evaluation.py:349-369 | end to end, for results in batch order: question `q` has the score and feedback that the model returned at its place for its batch, and zero if the model returned too few or nothing |
| EvaluationSummary.SanitizeItems | backend/app/graphs/evaluation.py:379-391 | the loop with the seen set returns the capped first occurrences of the stripped nonblank items |
| EvaluationSummary.SanitizedIsClean | backend/app/graphs/evaluation.py:379-391 | at most eight items, stripped, nonblank, distinct, all from the chosen list |
| EvaluationSummary.SanitizedIs | backend/app/graphs/evaluation.py:379-391 | the result is the first eight of the items, stripped, that are not blank and say what no item before them does |
| EvaluationSummary.StripIs | backend/app/graphs/evaluation.py:385-387 | stripping takes off exactly the white space at both ends |
| EvaluationSummary.SanitizedIdempotentIff | backend/app/graphs/evaluation.py:381 | a second pass changes nothing if and only if the chosen list has an item with text or the other list of the second pass has none |
| FirstOccurrences.FirstByKeyKeys | backend/app/graphs/rag_agent.py:202-209 | deduplication keeps every key and none twice |
| FirstOccurrences.FirstByKeyPicks | backend/app/graphs/rag_agent.py:202-209 | what is kept is the list picked at increasing positions, exactly those whose key no earlier element has: order is kept, and of equal keys the first survives |
| RagAgent.MultiSearch | backend/app/graphs/rag_agent.py:183-212 | failed searches are skipped, and of the others' chunks exactly the first of each content is kept, in order |
| RagAgent.MaxScorePasses | backend/app/graphs/rag_agent.py:219-230 | the best score passes exactly if some chunk's score does |
| RagAgent.RagRuns | backend/app/graphs/rag_agent.py:110-130 | every run refines at most twice, evaluates at most three times, has a bounded length, and answers only on good quality or after exactly two refinements |
| RagAgent.ChunksFromLastSearch | backend/app/graphs/rag_agent.py:145-212 | in every run the chunks are what the last search found, nothing if it failed, and of several searches the first chunk of each content in order |
| RagAgent.AnswerEarned | backend/app/graphs/rag_agent.py:214-232 | an answer before the second refinement is given from at least two chunks of the last search, one of them with a score of a half or more |
| RagAgent.ComplexAsked | backend/app/graphs/rag_agent.py:295-298 | sub-questions are searched exactly for questions found to be complex |
| RagAgent.StepFacts | backend/app/graphs/rag_agent.py:293-306 | every step keeps the loop invariant and lowers a measure |
| RagAgent.Progress | backend/app/graphs/rag_agent.py:121-128 | a run stops only at the answer |
| ChunkPlayback.ChunkPlayer.PlayNextChunk | frontend/src/pages/VoiceInterviewPage.tsx:175-195 | starts the oldest waiting chunk, only when none is playing, or clears the flag; if the audio context raises, the player is stalled and at most that chunk is lost |
| ChunkPlayback.ChunkPlayer.OnEnded | frontend/src/pages/VoiceInterviewPage.tsx:190-193 | the chunk that ended joins those played; played, playing, lost and queued stay the accepted chunks in order |
| ChunkPlayback.ChunkPlayer.HandleAudioChunk | frontend/src/pages/VoiceInterviewPage.tsx:221-254 | a decoded chunk is accepted at the end and nothing playing is interrupted; a start that raises stalls the player for good and skips the drain check |
| ChunkPlayback.ChunkPlayer.DrainTick | frontend/src/pages/VoiceInterviewPage.tsx:197-219 | the check completes without timing out exactly when every accepted chunk has been played, so never for a stalled player |
| HistoryRebuild.AddMessage | frontend/src/pages/VoiceInterviewPage.tsx:582-606 | one message, with the held-back AI text, adds that message's group |
| HistoryRebuild.Rebuild | frontend/src/pages/VoiceInterviewPage.tsx:580-609 | the loop equals the concatenation of one group per message, user first exactly after a group that ends with an AI text |
| HistoryRebuild.TranscriptComplete | frontend/src/pages/VoiceInterviewPage.tsx:580-609 | every nonblank text appears exactly once |
| HistoryRebuild.TranscriptIs | frontend/src/pages/VoiceInterviewPage.tsx:582-606 | each message adds its texts, trimmed, behind all others: the AI's first, unless the message before it ends with an AI text, then the user's |
| HistoryRebuild.SidesInOrder | frontend/src/pages/VoiceInterviewPage.tsx:580-609 | the texts of each side come in the order they were said |
| Polling.BackoffStep | frontend/src/hooks/usePolling.ts:55-60 | multiplying and capping the capped interval is the next power of the multiplier, capped |
| Polling.BackoffMonotoneIff | frontend/src/hooks/usePolling.ts:33-60 | a failure never shortens the wait if and only if the base interval does not exceed the ceiling |
| Polling.PollingHook.AtMostOneArmed | frontend/src/hooks/usePolling.ts:48-66 | in every reachable state at most one timer is armed |
| Polling.PollingHook.ClearTimer | frontend/src/hooks/usePolling.ts:41-46 | leaves no timer |
| Polling.PollingHook.ScheduleNext | frontend/src/hooks/usePolling.ts:48-66 | leaves exactly one timer, the one remembered, that waits for the current interval |
| Polling.PollingHook.TimedPollSettles | frontend/src/hooks/usePolling.ts:50-65 | success resets and failure backs off, the interval stays on the backoff schedule, and the next poll is armed only while mounted |
| Polling.PollingHook.Trigger | frontend/src/hooks/usePolling.ts:68-72 | resets the interval and clears the timer |
| Polling.PollingHook.TriggeredPollSettles | frontend/src/hooks/usePolling.ts:72-83 | a triggered poll resets the interval or sets the first backoff, then arms one timer while mounted |
| Polling.PollingHook.EffectSetup | frontend/src/hooks/usePolling.ts:86-90 | sets the mounted flag and, if enabled, leaves exactly one timer |
| Polling.PollingHook.EffectCleanup | frontend/src/hooks/usePolling.ts:91-94 | leaves no timer |

## Left out

- Decoding bytes to characters, HTTP and JSON: the decoder starts from characters, a chunk may be any string, closing the character decoder adds nothing or one replacement character, and whether a content is a business error is an arbitrary predicate.
- The messages of raised errors: a failure is recorded as the content that raised.
- Rounding of floating-point samples: resampling is over real numbers; not-a-number samples do not exist there.
- Subarray views of the worklet share memory in the source; here a pending piece is a value, which nothing writes to afterwards. Failures of `postMessage` are not modelled.
- The category and the record an evaluation is attributed to are left open in AgentGraph: a fanned-out tool sees only its own call, so the source falls back to its defaults for both.
- Checkpointing, event streaming and the graph library's own recursion limit: a round that waits for approval is a round in progress, resuming it is its tools completing, and what an abandoned round had not merged is dropped.
- AgentMerge.MergeToolResults: sorts with the stable sorting function of AgentMemory instead of Python's; what its proof uses is that the result is that function's.
- Text of prompts, of questions and of trace details: messages keep roles, ids and the end signal, trace entries their step and action.
- Order in which the graph library reduces parallel results: every order is allowed, and EvaluationAlignedIff says which one the positional merge needs.
- `build_report`, category summaries and question highlights of the evaluation: simple sums and cuts.
- The complexity heuristic and the traces of the retrieval agent: complexity is an input of the step.
- The prompt and the answer of the retrieval agent, which its first five chunks go into.
- RagAgent.Progress: a chunk score that is not a number makes the source's evaluation raise; scores are real numbers here.
- Polling.PollingHook.TimedPollSettles: the schedule is stated for a nonnegative interval and ceiling and a multiplier of at least 1; with others only the timers are.
- Stopping playback and clearing the drain check when the page is left.
- Polling does not stop for good when it is disabled: a callback in flight may arm the next timer if the effect has been set up again, as in the source.
- Rendering, routing, settings, authentication, rate limiting, migrations and service wiring.
