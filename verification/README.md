# CAPS: a model of the engine's language, its execution and the gateway's record

CAPS launches command lines and records what happened. A C engine lexes a line, splits it
into a pipeline, forks the stages and reports each step on a monitor stream. A TypeScript
gateway asks the engine what a line means, starts it, numbers, stores and publishes every
event, streams them to clients that come and go, validates the stored history, and signals
processes that may already be gone. This project models those parts in Dafny and proves what
they keep. `dafny verify dfyconfig.toml` checks everything.

The files follow the program:

* Command language: `Lexer`, `Tokenizer`, `Pipeline`, `PipelineParser` (parser.c); `Grammar`,
  `PipelineAccepted` (the same language told independently of the scan and the slicing);
  `QuotedWords` (the reading that keeps quotes, against the engine's);
  `Rebuild`, `RoundTrip` (the quoting printer and its way back through the lexer);
  `Json`, `Inspect` (the `--inspect` document and the gateway's reading of it).
* Execution: `Engine`, `EngineRun`, `EngineSchedule`, `EngineStatus` (process.c, monitor.c,
  main.c);
  `EngineStream` (the printed lines after normalising); `Descriptors`, `ParentFiles`, `Wiring`,
  `Labels` (pipes, the parent's other descriptors, dup2, and the labels that describe them).
* Record: `Events`, `Validator`, `StreamRules`, `Findings`, `ValidateStream` (the fourteen
  invariants); `Recorder`, `RecorderRun`, `RecorderSafety`, `RecorderStatus`, `RecorderValid`,
  `RecorderVerdict` (runner.ts);
  `LineAssembly` (stderr chunks); `Stream`, `StreamExact`, `StreamResume`, `StreamRun` (bus and
  SSE handler).
* Helpers with a specification of their own: `PidSignal`, `HostStream`, `Sampler`, `Options`,
  `OptionsAccepted`.

Where the source changes state, the model is a class or a method with loops, tied by its
contract to a function of the inputs or the old state; the properties are proved about that
function. A `char` stands for one byte of a line (for one character on the gateway's side).

The gateway runs the stream handler from attaching to the flush without a pause, and publishes
an event in the step that stores it. `Stream` allows more: every order of storing, publishing,
reading, sending and flushing. `StreamRun.Connection.Serve` and
`StreamResume.ReconnectsOfTheGateway` state what holds for the gateway's own order.

## What the code does where its comments say otherwise

Each of these is modelled as the code has it; the named members say exactly when it matters,
and where a promise fails they show an input.

* An empty quoted word survives only at the end of a line (src/parser.c:394-400):
  `Lexer.KeepsEveryWordIff`, `Lexer.EmptyWordMerges`; for the rebuilt line
  `RoundTrip.RebuiltLineReadsBackIff`, `RoundTrip.SomeLineIsChanged`.
* `bb_reserve` caps the doubled capacity at what is needed, so it never grows in doubles
  (src/parser.c:227-234): `Tokenizer.ByteBuf.Reserve` states the exact capacity for every
  request.
* A token equal to `|` separates stages, and one equal to an operator redirects, even when it
  was quoted or escaped (src/parser.c:85-94, 515, 540): `QuotedWords.QuotedWordsAreDataIff`,
  `QuotedWords.QuotedPipeSplits`, `QuotedWords.QuotedOperatorRedirects`.
* The stdin and stdout labels ignore a redirection that replaces a pipe
  (src/parser.c:622-649): `Labels.LabelTellsTheWiringIff`, `Labels.PipeLabelOnAFile`.
* When a stage cannot be forked, its own files and its status pipe stay open in the parent
  (src/process.c:1044-1050, 1153-1181): `ParentFiles.NothingLeftOpenIff`,
  `ParentFiles.FailedForkLeaks`.
* When waiting for the last stage of a pipeline fails, the pipeline returns 0, because the
  status word starts as zero (src/process.c:1207-1212, 1309-1317):
  `EngineSchedule.StatusZeroIff`, `EngineSchedule.UnansweredWaitDiffers`.
* The signal notice of a single command declares 0 stages (src/process.c:772-785), so
  `0 <= stage < stages` (src/monitor.c:307-317) fails on that line:
  `EngineStream.StageBelowStagesIff`, `EngineStream.SignalledCommandIsOutOfRange`. The validator
  compares with the largest number declared in the stream, so the record stays valid:
  `EngineStream.RunIsSound`.
* EXEC_ERROR and WAIT_FAILED print no stage and a stage that was never launched ends with pid
  0, so the recorded stream fails I11 (src/monitor.c:437-465, src/process.c:1189-1204):
  `RecorderVerdict.WholeRunIsValidIff`, `RecorderVerdict.FailedExecIsRefused`.
* A COMMAND_RECEIVED line over 400 bytes is not JSON (src/monitor.c:290-291), so the record
  does not say which command ran: `RecorderVerdict.CommandRecordedIff`,
  `RecorderVerdict.LongCommandIsNotRecorded`.
* The engine's status is the last stage's, but a session with a signalled producer is FAILED
  (web/backend/src/execution/runner.ts:910-912): `RecorderVerdict.SessionCompletedIff`,
  `RecorderVerdict.SignalledProducer`, `RecorderVerdict.BrokenPipeFailsTheSession`.
* After a child error one late line can still be stored
  (web/backend/src/execution/runner.ts:583-596, 1027-1041):
  `RecorderSafety.TerminalIsLastIff`, `RecorderSafety.LateLineFollowsChildError`, bounded by
  `RecorderSafety.PublishedIsStored`.
* Live events are not compared with Last-Event-ID
  (web/backend/src/api/routes.ts:703-718): `StreamExact.ExactIffFits`,
  `StreamExact.ResumeBeyondTheEnd`; over reconnects `StreamResume.ReconnectIsSafeIff`,
  `StreamResume.RepeatedAfterReconnect`.
* An unfinished line over 65536 characters is cut off
  (web/backend/src/execution/runner.ts:569-576): `LineAssembly.ChunksDoNotMatterIff`,
  `LineAssembly.AnyCuttingIff`, `LineAssembly.LongLineIsLost`.
* Without a process descriptor the identity is read before an await
  (web/backend/src/execution/terminator.ts:270-313): `PidSignal.StrangerHitIff`,
  `PidSignal.StrangerCanBeKilled`.
* A separate count is not bounded by the numeric short form
  (web/backend/src/catalog/validation.ts:110-115, 179-183): `Options.ExpansionKeepsTheVerdict`,
  `Options.SeparateCountIsNotBounded`, `Options.HeadCountsTwoWays`.

## Model

| member | source | states |
|---|---|---|
| Lexer.TokenizeBounds | src/parser.c:274-467 | an accepted line has at most 65536 bytes and gives at most 4096 tokens of at most 20000 bytes, an empty token only last |
| Lexer.KeepsEveryWordIff | src/parser.c:394-424 | the tokens are those the quoting grammar describes exactly when no word that spells nothing is followed by more text |
| Lexer.EmptyWordMerges | src/parser.c:300-306 | the line `'' b`, described as two tokens, is read as one |
| Grammar.WordsAreTheirMeanings | src/parser.c:274-467 | words written down in any way the language has, with any blanks between them and a comment behind, are read as what they mean: every line of at most 65536 bytes, 4096 words and 20000 bytes a word |
| Grammar.LooseLineIsRefused | src/parser.c:325-384 | a line that ends inside a quoted run, or on a backslash, is refused with the error of its ending, whatever is in front |
| Grammar.BackslashInQuotes | src/parser.c:342-378 | anywhere between double quotes a backslash before a double quote, a backslash, a dollar sign or a backtick gives that byte alone, before a line feed nothing, and before any other byte both |
| Grammar.LoneBackslash | src/parser.c:357-369 | the same for the line of a double quote, a backslash, any byte but a line feed, and a double quote |
| Grammar.TooManyWords | src/parser.c:274-467 | a line with anything but blanks and a comment behind 4096 words is refused for that |
| Tokenizer.ByteBuf.Reserve | src/parser.c:213-245 | room for more bytes is granted exactly up to the token limit, the contents stay, and the capacity is the larger of what was there, 64 and what is needed |
| Tokenizer.ByteBuf.PushLit | src/parser.c:247-272 | a byte is appended exactly while the token is below its limit, otherwise nothing changes |
| Tokenizer.ArgVector.Store | src/parser.c:400-420 | the finished token is appended to the growable vector and the buffer starts empty again |
| Tokenizer.ReadSingleQuoted | src/parser.c:325-341 | the pointer scan of a single-quoted run gives the bytes and the end position of the grammar, or its error |
| Tokenizer.ReadDoubleQuoted | src/parser.c:342-378 | the same for a double-quoted run with its escapes and line continuation; which bytes those are is in Grammar.BackslashInQuotes |
| Tokenizer.ReadUnit | src/parser.c:318-392 | one quoted run, escape or plain byte is read as the grammar reads it |
| Tokenizer.ParserTokenize | src/parser.c:274-467 | the pointer scan with growable buffers computes the recursive definition of the grammar for every line, errors included; what that gives is in Grammar.WordsAreTheirMeanings and Grammar.LooseLineIsRefused |
| Pipeline.OpNames | src/parser.c:78-94 | the five operators are the redirection operators, each the text of its own kind |
| Pipeline.OperatorMeanings | src/parser.c:44-94 | which operator reads the standard input, and which write or add to the standard output or error |
| Pipeline.SplitConserves | src/parser.c:96-173 | arguments, operators and targets together are exactly the tokens: nothing is lost or duplicated |
| Pipeline.SplitKeepsOrder | src/parser.c:96-173 | arguments and redirections stay in source order and every redirection has its operator's descriptor |
| Pipeline.FirstPipeIsFirst | src/parser.c:534-545 | a stage ends at the first separator token |
| Pipeline.StageCount | src/parser.c:513-520 | an accepted list has one stage more than it has separators |
| PipelineAccepted.AcceptedTokensIff | src/parser.c:498-676 | a token list is a pipeline if and only if it has at most 15 separators, every operator has a word behind it in its stage, and every stage has a word that is no target |
| PipelineAccepted.RefusalIsExplained | src/parser.c:498-676 | whatever a refusal of a token list says is so: the number of stages, the operator without a target, the two operators, the empty stage or the stage without a command |
| QuotedWords.WordsAreTokens | src/parser.c:274-467 | the scan that remembers what was quoted reads the same tokens |
| QuotedWords.PlainLinesAgree | src/parser.c:472-477 | a line in which no pipe sign and no operator is quoted or escaped is read as described, errors included |
| QuotedWords.QuotedWordsAreDataIff | include/parser.h:48-59 | a line accepted by either reading is read as described if and only if no word is a pipe sign or an operator that was quoted or escaped |
| QuotedWords.QuotedBarsAddStages | src/parser.c:513-517 | each quoted or escaped pipe sign makes one stage more than described |
| QuotedWords.QuotedPipeSplits | src/parser.c:534-545 | a concrete line: a, a pipe sign in quotes and b, described as one command with three words, runs as two stages |
| QuotedWords.QuotedOperatorRedirects | src/parser.c:85-94 | a concrete line: a, an output operator in quotes and b, described as one command with three words, writes to the file b |
| PipelineParser.FindFault | src/parser.c:96-130 | the validating pass finds the first operator without a target, and changes nothing |
| PipelineParser.Compact | src/parser.c:132-173 | the in-place pass leaves the arguments, then a null, and gives the redirections in order |
| PipelineParser.SplitRedirections | src/parser.c:96-173 | on error argv is untouched; on success it is compacted in place to the arguments and ends in a null |
| PipelineParser.SliceStages | src/parser.c:534-606 | the slicing loop builds the stages of the recursive definition, or stops at its first error |
| PipelineParser.LabelStages | src/parser.c:622-649 | every stage gets the labels of its position and its redirections |
| PipelineParser.ParsePipeline | src/parser.c:498-676 | the whole parser computes the pipeline a line describes, or the reason it is refused |
| Rebuild.LineIsItsWords | web/backend/src/terminal/grammar.ts:260-271 | the rebuilt line is its quoted words joined by single spaces |
| Rebuild.WordsReadBack | web/backend/src/terminal/grammar.ts:281-285 | quoted words read back by the lexer are the tokens they quote |
| Rebuild.EmptyAbsorbed | src/parser.c:394-424 | an empty quoted word before an operator disappears when the line is read |
| RoundTrip.ParsedIsWellParsed | src/parser.c:498-676 | what every parsed pipeline satisfies: operands only, descriptors by kind, labels by position, empties only at the end, and the limits |
| RoundTrip.TokensParseBack | src/parser.c:498-676 | the tokens of a parsed pipeline parse to that pipeline |
| RoundTrip.ReadsBack | web/backend/src/terminal/grammar.ts:260-285 | a rebuilt line within the limit that loses no empty argument reads back as the validated pipeline with resolved paths |
| RoundTrip.DropsTheEmpty | web/backend/src/terminal/grammar.ts:260-285 | otherwise the last stage loses its trailing empty argument |
| RoundTrip.RebuiltLineReadsBackIff | web/backend/src/terminal/grammar.ts:260-285 | for every accepted line: the engine reads the rebuilt line back as the validated pipeline if and only if it is within the line limit and the last stage has no empty argument before a redirection |
| RoundTrip.SomeLineIsChanged | web/backend/src/terminal/grammar.ts:260-285 | the line `a > b ""` is accepted, and its rebuilt line reads back as another pipeline |
| Json.CharsRoundTrip | src/utils.c:44-76 | escaped text is read back by the string grammar of section 7 of RFC 8259 as the text itself |
| Json.ValueRoundTrip | src/main.c:310-357 | every printed value parses to itself, stopping right after it |
| Json.DocumentRoundTrip | src/main.c:310-357 | a printed document followed by a line feed parses to the value that was printed |
| Json.PrintNoControl | src/utils.c:44-76 | printed values hold no raw control byte, so a document is one line |
| Json.EscapesOfTheStandard | web/backend/src/terminal/grammar.ts:136-142 | the reader knows exactly the one-letter escapes of section 7 of RFC 8259, with their meanings |
| Inspect.JsonEscape | src/utils.c:44-76 | the escaping loop writes the escaped text |
| Inspect.PrintStage | src/main.c:312-353 | one stage is printed with nested loops as the document's object |
| Inspect.InspectLineMode | src/main.c:299-359 | the inspect mode answers every line with the document and status 0, or nothing and status 2 |
| Inspect.ScanCost | src/parser.c:274-467 | tokens are no longer than the text they were written as |
| Inspect.ReplyFits | web/backend/src/terminal/grammar.ts:108-116 | no reply exceeds the gateway's output limit of one mebibyte |
| Inspect.GatewaySeesTheParsedPipeline | web/backend/src/terminal/grammar.ts:108-151 | for every line the gateway reads exactly the pipeline the engine parsed, or a syntax error when the engine refused it |
| Inspect.GatewaySeesEachStage | web/backend/src/terminal/grammar.ts:144-150 | each stage the gateway reads has the number, arguments, redirections with operator, descriptor and target, and labels of the parsed stage |
| Inspect.SeenStagesDetermine | web/backend/src/terminal/grammar.ts:144-150 | two pipelines that look the same to the gateway are the same |
| Validator.SortedKeeps | web/backend/src/events/invariants.ts:122 | the defensive sort is ascending and keeps every event |
| Findings.SortIsStable | web/backend/src/events/invariants.ts:122 | events of one number stay in the order they were handed over |
| Findings.ReportedIffBroken | web/backend/src/events/invariants.ts:120-347 | the report is exact: a finding with its rule, severity, sequences and event ids is in it if and only if the sorted stream breaks that rule at those events |
| Findings.SummaryTells | web/backend/src/events/invariants.ts:355-367 | the summary holds the number of events, the session if it is one, the least and the largest sequence, and the kind and sequence of the lowest-numbered ending |
| Findings.CountsAddUp | web/backend/src/events/invariants.ts:349-354 | there is one warning for each unreadable payload, and all other findings are errors |
| StreamRules.MembersNumbered | web/backend/src/events/invariants.ts:163-177 | events numbered 0, 1, 2 without repetition, once sorted, sit at their own number |
| StreamRules.IdRule | web/backend/src/events/invariants.ts:136-149 | on a numbered stream the uniqueness pass is silent exactly when identifiers are distinct |
| StreamRules.SessionRule | web/backend/src/events/invariants.ts:124-134 | the session check is silent exactly when all events share their session |
| StreamRules.TerminalLastRule | web/backend/src/events/invariants.ts:186-194 | the terminal check is silent exactly when only the last event is terminal |
| StreamRules.StatusRule | web/backend/src/events/invariants.ts:212-233 | the status check is silent exactly when a final row and a terminal event go together |
| StreamRules.OrphanRule | web/backend/src/events/invariants.ts:235-261 | the lifecycle check is silent exactly when every ending has an earlier start of the same pid and stage |
| StreamRules.AccountedRule | web/backend/src/events/invariants.ts:263-303 | the envelope check is silent exactly when the first completion's stages all have an ending |
| StreamRules.StageRangeRule | web/backend/src/events/invariants.ts:305-323 | the range check is silent exactly when no stage lies outside the largest declared pipeline |
| StreamRules.SuccessRule | web/backend/src/events/invariants.ts:325-337 | the success check is silent exactly when a completed session has an exit with code 0 |
| StreamRules.ValidIffWellFormed | web/backend/src/events/invariants.ts:120-368 | the verdict is valid exactly for the well-formed streams, a property of the multiset of events |
| StreamRules.VerdictIgnoresOrder | web/backend/src/events/invariants.ts:117-122 | the verdict is the same for every permutation of the events |
| StreamRules.ImpliedRules | web/backend/src/events/invariants.ts:136-203 | passing I4 implies passing I2 and I3; passing I6 implies passing I5 and I7 |
| ValidateStream.PassLifecycle | web/backend/src/events/invariants.ts:235-261 | the pass with its growing set of started processes reports each orphan |
| ValidateStream.ValidateEventStream | web/backend/src/events/invariants.ts:120-368 | the passes together give the whole report: every violation in order, the counts, the verdict and the summary |
| EngineRun.Monitor.Emit | src/monitor.c:473-533 | an event is printed and counted; the counters are always the tally of what was emitted |
| EngineRun.Monitor.Count | src/monitor.c:473-517 | which counters each kind of event moves |
| EngineRun.LaunchAll | src/process.c:1006-1151 | the launch loop emits the notes of the stages it could launch, stops at the first it could not, and holds their pids |
| EngineRun.ReapAll | src/process.c:1183-1265 | the reap loop emits each stage's ending in order and fills the status words that were answered |
| EngineRun.ExecSingle | src/process.c:617-809 | a single command emits its own sequence of events and returns its status, which EngineStatus.SingleStatusIsReported ties to those events |
| EngineRun.ExecStages | src/process.c:974-1318 | a pipeline of two or more stages emits its account and returns its status |
| EngineRun.RunLine | src/main.c:371-408 | one command line from parsing to the summary, with the status of EngineStatus.SingleStatusIsReported and EngineStatus.StatusOfOtherRuns |
| EngineSchedule.OneStartAndOneEnding | src/process.c:1114-1265 | the starts are those of the launched stages and the endings those of all stages |
| EngineSchedule.StartListAt | src/process.c:1134-1149 | the i-th start is stage i's |
| EngineSchedule.EndingListAt | src/process.c:1188-1265 | the i-th ending is stage i's, and there is one per stage |
| EngineSchedule.StartsPairWithEndings | src/process.c:1216-1221 | when every stage was launched, the i-th start and the i-th ending are of one process |
| EngineSchedule.StartsComeFirst | src/process.c:1006-1265 | no ending is reported before the last start |
| EngineSchedule.SignalsPrecedeTheirExit | src/process.c:1243-1263 | a signal notice is followed at once by the exit of the same process with 128 plus the signal |
| EngineSchedule.CountersBalance | src/monitor.c:473-517 | succeeded + failed is commands plus the stages never launched, and equals commands exactly when all were launched |
| EngineSchedule.StatusIsLastStages | src/process.c:1300-1317 | the returned status is the one reported in the last stage's exit, and 1 when a launch failed |
| EngineSchedule.StatusZeroIff | src/process.c:1183-1317 | a pipeline returns 0 exactly when all stages were launched and the last one exited 0 or could not be waited for |
| EngineSchedule.UnansweredWaitDiffers | src/process.c:729-742 | an unanswered wait is a failure for a single command and a success for a pipeline |
| EngineStatus.SingleStatusIsReported | src/process.c:617-809 | a single command, for every answer of the kernel: the run returns the status of the last exit or exec error it reports and 1 when there is none; that is the program's own code, 128 plus its signal, 126 for errno 13 and 127 for any other; and it is 0 exactly when the program ran and exited with 0 |
| EngineStatus.SingleSignalIff | src/process.c:764-795 | a single command was ended by a signal exactly when the run reports that signal |
| EngineStatus.StatusOfOtherRuns | src/process.c:1300-1318 | a refused line returns 2, pipes that do not open and a stage that is not launched return 1, and any other pipeline its last stage's code, 128 plus its signal, or 0 when it could not be waited for |
| EngineStatus.EndingsTellEachStage | src/process.c:1183-1265 | the i-th ending of a pipeline carries the process, status, outcome and duration of stage i |
| EngineStatus.EachStageIsTold | src/process.c:1006-1265 | how often each kind of note is told of each stage: redirections once if it came to its launch, its start once if it was launched, a signal, an exec error or an exit once if that is how it ended |
| EngineStatus.EachNoteIsPlaced | src/process.c:1006-1265 | every start, signal notice, redirection and envelope of a pipeline gives its own process, stage, number of stages and signal |
| EngineStatus.ClosedOnceAtTheEnd | src/process.c:1266-1290 | a pipeline is closed by its last note and no other, with its leader, its number of stages and its outcome |
| EngineStatus.CountersTell | src/monitor.c:473-517 | after any notes each counter is the number of the notes it stands for, and the total duration the sum of the timed ones |
| EngineStatus.RunIsFramed | src/main.c:371-408 | every run opens with its command, or the refusal of it, and closes with one summary; in between are the pipeline's notes |
| EngineStream.SoundPrefix | web/backend/src/execution/normalizer.ts:8-152 | what a stream of lines guarantees, each of its beginnings guarantees |
| EngineStream.RunIsSound | src/process.c:916-1318 | in every run, every ending that carries a process follows its start, a completion accounts for its stages, and each stage lies in a pipeline declared by then |
| EngineStream.StageBelowStagesIff | src/process.c:764-795 | every line declares more stages than its own stage number, except in exactly the runs of a single command that a signal ended |
| EngineStream.SignalledCommandIsOutOfRange | src/process.c:772-785 | a concrete run: the signal notice of a killed command claims stage 0 of 0 |
| RecorderRun.SessionRecorder.EmitEvent | web/backend/src/execution/runner.ts:722-737 | an event takes the next number, is stored, and is published only if it was stored |
| RecorderRun.SessionRecorder.ObserveEvent | web/backend/src/execution/runner.ts:739-831 | what each engine event changes in the session, and nothing once it is unregistered |
| RecorderRun.SessionRecorder.RouteStderrLine | web/backend/src/execution/runner.ts:583-616 | one line becomes an event that is emitted and then observed |
| RecorderRun.SessionRecorder.PublishSnapshot | web/backend/src/execution/runner.ts:833-838 | a sample is emitted only for a live session |
| RecorderRun.SessionRecorder.HandleTimeout | web/backend/src/execution/runner.ts:651-654 | the timer marks a live session once and emits nothing |
| RecorderRun.SessionRecorder.Finalize | web/backend/src/execution/runner.ts:940-1025 | row and terminal event are written together or not at all, and the session is unregistered either way; which row and event is in RecorderStatus.SessionRowIff |
| RecorderRun.SessionRecorder.FinalizeFailed | web/backend/src/execution/runner.ts:1027-1041 | a child error ends a live session once |
| RecorderRun.SessionRecorder.FinalizeAbandoned | web/backend/src/execution/runner.ts:1051-1088 | recovery ends a session that is not final, after its largest sequence |
| RecorderRun.SessionRecorder.FailBefore | web/backend/src/execution/runner.ts:523-540 | a session that never got a child ends with sequence 1 |
| RecorderSafety.StepKeeps | web/backend/src/execution/runner.ts:722-1088 | every step, with its insertion succeeding or failing, keeps the recorder's invariant |
| RecorderSafety.PublishedIsStored | web/backend/src/execution/runner.ts:698-737 | in every run with any insertions failing: published is exactly stored, in order, sequences strictly increase, at most one terminal event exists and at most one event follows it |
| RecorderSafety.TerminalIsLastIff | web/backend/src/execution/runner.ts:583-596 | over whole runs the terminal event is the last one stored if and only if no line is accepted after the stored early end of a session (a child error, or the gateway giving up) |
| RecorderSafety.CloseIsLast | web/backend/src/execution/runner.ts:940-1025 | from any reachable live session, a stored close puts the one terminal event last, and every continuation leaves the store as it is |
| RecorderSafety.LateLineFollowsChildError | web/backend/src/execution/runner.ts:1027-1041 | a concrete run in which a line is stored after the terminal event of a child error |
| RecorderValid.OrphansIff | web/backend/src/events/invariants.ts:235-261 | a recorded stream has no orphan exactly when no line reported an ending that cannot be paired |
| RecorderValid.RecordedStreamIsValidIff | web/backend/src/execution/runner.ts:484-511 | for sound lines and any interleaving of samples, output, a timeout and terminate requests, the closed stream and row pass the validator if and only if every ending could be paired |
| RecorderValid.EngineRunIsValidIff | web/backend/src/execution/runner.ts:722-1025 | the same for any run of the engine, or for as much of it as was printed |
| RecorderVerdict.RunPairedIff | src/process.c:1183-1265 | which runs print only endings that can be paired |
| RecorderVerdict.WholeRunIsValidIff | web/backend/src/events/invariants.ts:120-368 | a session recording a whole run is valid exactly when every stage ran a program whose end was observed, or nothing was started |
| RecorderVerdict.FailedExecIsRefused | src/monitor.c:429-446 | a concrete run: the record of a command that is not found is refused by the validator |
| RecorderVerdict.SessionCompletedIff | web/backend/src/execution/runner.ts:886-938 | the session of a whole run, single command or pipeline, is COMPLETED exactly when the timer never fired, every stage exited by itself and the last one with 0 |
| RecorderVerdict.SignalledProducer | web/backend/src/execution/runner.ts:910-912 | with a signalled stage and a last stage that exits 0 the engine returns 0, and the session is not COMPLETED: it is FAILED unless it timed out or was asked to terminate |
| RecorderVerdict.BrokenPipeFailsTheSession | web/backend/src/execution/runner.ts:910-912 | a concrete run: a producer killed by signal 13 and a reader that exits 0 give status 0 and a FAILED session |
| RecorderVerdict.CommandRecordedIff | src/monitor.c:262-297 | the record of a whole run holds a command.received event exactly when the line was accepted and has at most 400 bytes |
| RecorderVerdict.LongCommandIsNotRecorded | src/monitor.c:262-297 | a concrete run: the record of a completed command of 401 bytes has no command.received event |
| RecorderStatus.SessionRowIff | web/backend/src/execution/runner.ts:886-1010 | the row of a closed session, whatever its lines: TIMED_OUT exactly when the timer fired, CANCELLED exactly when it did not, a terminate request was sent and some line reports a signal, COMPLETED exactly when no line reports a signal or trouble and the last outcome is success, FAILED otherwise; the last event is the one of that row, with the exit code, the last signal and the last process started |
| RecorderStatus.TerminalTellsTheRow | web/backend/src/execution/runner.ts:959-970 | in every run, with any insertions failing, a stored terminal event is the one that belongs to the row |
| RecorderStatus.FinalRowStays | web/backend/src/execution/runner.ts:940-1088 | once a row is final no step changes it |
| RecorderStatus.GivenUpIsFailed | web/backend/src/execution/runner.ts:1027-1088 | a session that is never closed is FAILED exactly when its start or its child failed or it was given up, and otherwise not ended |
| RecorderStatus.GivenUpRecordHasNoGap | web/backend/src/execution/runner.ts:1027-1088 | however a running session is given up, by a child error, by the gateway or by recovery after a crash, its record goes on without a gap and ends in execution.failed |
| RecorderStatus.FailedStartHasTwoEvents | web/backend/src/execution/runner.ts:523-540 | a session whose child never came to be has two events, numbered 0 and 1 |
| RecorderStatus.RecordHoldsTheSteps | web/backend/src/execution/runner.ts:484-511 | the record is the creation, the start, one event for each sample and each line that is an event, in the order of the steps, and the closing event |
| RecorderStatus.RecordShowsTheRun | web/backend/src/execution/normalizer.ts:8-152 | the record of a run has, in order, one event for each note of the engine that shows its type, process, place, code, signal and outcome, and what else it has comes from the gateway |
| StreamExact.StreamIsExact | web/backend/src/api/routes.ts:693-761 | for a client that attached where it fits, in every interleaving of insert, publish, read, send and flush: it holds, in order and once each, a beginning of the stored events after its resume position up to the first terminal one, and all of them once live |
| StreamExact.EndedStreamIsComplete | web/backend/src/api/routes.ts:707-748 | a stream that ended by itself holds all that was stored after its position when it attached up to the first terminal event, and all that is stored now if there is one or nothing was added |
| StreamExact.MisfitRun | web/backend/src/api/routes.ts:703-759 | where an attachment does not fit, a run delivers an event at or below the resume position |
| StreamExact.ExactIffFits | web/backend/src/api/routes.ts:703-759 | all runs of an attachment are exact if and only if, when it is made, the session is over, its backlog has an end, or the resume position lies below the first number still to be published |
| StreamExact.HonestClientFits | web/backend/src/events/sse.ts:140-146 | a client without a position, or with the number of a published event, always fits |
| StreamExact.ResumeBeyondTheEnd | web/backend/src/api/routes.ts:703-718 | a concrete run: a client that resumes beyond the end of a live session is sent the next event all the same |
| StreamResume.ReconnectsGivePrefix | web/backend/src/events/sse.ts:140-146 | over any number of connections, each a run of its own from where the last one left off, the deliveries together are a prefix of the store (section 9.2.4 of the WHATWG HTML Standard) |
| StreamResume.ReconnectIsSafeIff | web/backend/src/api/routes.ts:693-761 | a client holding a beginning of the store keeps holding one, in every run of its next connection, if and only if what it holds was published when it came back, or the session or its backlog has an end |
| StreamResume.ReconnectsOfTheGateway | web/backend/src/execution/runner.ts:722-737 | with events published in the step that stores them, every history of connections collects a prefix of the store |
| StreamResume.RepeatedAfterReconnect | web/backend/src/api/routes.ts:703-718 | a concrete history: an event stored and not yet published when the client comes back is received twice |
| StreamRun.Connection.DeliverEvent | web/backend/src/api/routes.ts:704-718 | an event is sent once, and a terminal one ends the stream |
| StreamRun.Connection.OnEvent | web/backend/src/events/bus.ts:65-75 | the listener buffers until the flush and delivers afterwards |
| StreamRun.Connection.FlushBuffer | web/backend/src/events/bus.ts:91-104 | the buffer is drained in order without duplicates, and the stream goes live or ends |
| StreamRun.Connection.Serve | web/backend/src/api/routes.ts:693-761 | the handler in one go writes the backlog up to its first terminal event, and then ends or goes live |
| StreamRun.EventBus.Publish | web/backend/src/events/bus.ts:38-46 | every listener of the session receives the event once, no other is touched |
| StreamRun.EventBus.Unsubscribe | web/backend/src/events/bus.ts:32-35 | a listener leaves its channel only, and an empty channel disappears |
| Descriptors.StepKeeps | src/process.c:1052-1112 | after any close in any process, a child holds what it owns and what it has not come to yet |
| Descriptors.EachEndHasOneHolder | src/process.c:951-1157 | for any number of stages and any order of closes, once they are done pipe k is written by stage k alone and read by stage k + 1 alone |
| Descriptors.ExitIsSeenByNeighbours | src/process.c:1063-1086 | the reader is at end of file exactly when the writer is gone, and the other way round |
| ParentFiles.NothingLeftOpenIff | src/process.c:1006-1181 | no redirection or status descriptor stays open in the parent exactly when all stages were launched, or the failing one had its files refused, or had none and no status pipe |
| ParentFiles.FailedForkLeaks | src/process.c:1044-1050 | a concrete launch: the file and both status ends of the stage that could not be forked stay open |
| ParentFiles.Parent.OpenRedirections | src/process.c:504-518 | a stage's files are opened all or none |
| ParentFiles.Parent.RunPipeline | src/process.c:1006-1181 | the launch loop and the two closing loops leave open exactly what the stage that failed had |
| Wiring.StandardDescriptors | src/process.c:845-876 | each of 0 to 2 ends at the last redirection naming it, else its pipe end, else where it was (section 2.7 of POSIX.1-2017 XCU), files that were opened at their own target included |
| Wiring.OpenedDescriptors | src/process.c:555-582 | a redirection's descriptor above 2 is closed again, a pipe's is not |
| Wiring.Child.ApplyRedirections | src/process.c:555-582 | the dup2 and close loop computes the fold of its turns |
| Wiring.Child.StageApply | src/process.c:845-876 | pipe ends first, redirections second, with the wiring that results |
| Labels.LabelTellsTheWiringIff | src/parser.c:622-649 | a label tells where a stream goes exactly when no redirection replaces a pipe |
| Labels.PipeLabelOnAFile | src/parser.c:622-649 | the first stage of a pipeline with its output redirected is labelled pipe and writes to the file |
| PidSignal.HandleReachesTheCaptured | src/pidfd.c:232-318 | in every interleaving with exits and reuse of numbers a signal through the descriptor reaches the captured process or nobody |
| PidSignal.StrangerHitIff | web/backend/src/execution/terminator.ts:256-324 | over every run at most one signal is sent, and it reaches a stranger if and only if it is a checked kill whose look matched the captured ticks, with the number released in between and held again |
| PidSignal.QuietNumberIsSafe | web/backend/src/execution/terminator.ts:268-313 | while the number is not released no run signals anyone but the captured process |
| PidSignal.StrangerCanBeKilled | web/backend/src/execution/terminator.ts:268-313 | a concrete run in which the checked kill reaches another process |
| PidSignal.LiveProcessIsSignalled | web/backend/src/execution/terminator.ts:256-324 | a captured process that holds its number and does not release it: a run that comes to its last step has sent exactly one signal, to that process, through the descriptor where there is one, and until then it can go on |
| PidSignal.BothPathsDeliver | web/backend/src/execution/terminator.ts:256-324 | the shortest run through the descriptor and the shortest without one both deliver once to a live captured process |
| PidSignal.Host.SignalThroughHandle | src/pidfd.c:232-318 | bind, verify and send deliver once to the captured process exactly when it is still alive |
| PidSignal.Host.EscalateTo | web/backend/src/execution/terminator.ts:256-324 | with descriptors, one signal reaches the captured process exactly when it is alive at the send, that is when it held its number at entry and did not release it since, and otherwise nobody is signalled; without them the checked kill is sent exactly when the look matched and somebody holds the number, and reaches the captured process exactly when the number was not released since |
| LineAssembly.SplitAppend | web/backend/src/execution/output.ts:90-95 | a text cut in two gives the lines of the whole |
| LineAssembly.TextIsItsLines | web/backend/src/execution/output.ts:90-95 | no line holds a line feed, and the lines with a line feed each, then the rest, are the text |
| LineAssembly.PendingBound | web/backend/src/execution/runner.ts:569-578 | a remainder of up to 65536 characters is kept, a longer one is cut off |
| LineAssembly.NothingDroppedIff | web/backend/src/execution/runner.ts:548-581 | nothing is cut off exactly when after every piece the unfinished line is within 65536 characters |
| LineAssembly.ChunksDoNotMatterIff | web/backend/src/execution/runner.ts:548-623 | the lines handed on are those of the whole text if and only if after every piece the unfinished line is within the bound |
| LineAssembly.AnyCuttingIff | web/backend/src/execution/runner.ts:548-623 | every way of cutting a text hands on the same lines if and only if none of its lines exceeds the bound |
| LineAssembly.LongLineIsLost | web/backend/src/execution/runner.ts:569-576 | a concrete text: 65537 characters without a break are one line, and none is handed on |
| LineAssembly.Assembler.OnStderr | web/backend/src/execution/runner.ts:548-581 | one chunk is split, its remainder kept or cut off, its lines handed on |
| HostStream.FramesAreAccounted | web/backend/src/events/systemStream.ts:414-448 | over any run delivered + waiting + dropped is emitted, in order; at most 32 wait, none while a delivery is attached |
| HostStream.ResumeGetsTheLatest | web/backend/src/events/systemStream.ts:414-448 | after a pause the subscriber gets the last 32 frames of it and the others are counted |
| HostStream.Subscription.Push | web/backend/src/events/systemStream.ts:430-446 | one frame is queued, dropped against the bound, or delivered |
| HostStream.Subscription.SetDelivery | web/backend/src/events/systemStream.ts:414-423 | attaching hands over everything that waited, in order |
| Sampler.EveryRunKeeps | web/backend/src/telemetry/sampler.ts:128-220 | over any run of ticks accepted samples share start ticks and parent, a rejected or unreadable one is last, no rate is negative |
| Sampler.AcceptedIffHealthy | web/backend/src/telemetry/sampler.ts:186-220 | over any run a reading is accepted if and only if it and all before it show a process, whose parent is the known engine, with a first start near the event and start ticks that never changed; the first that does not is reported with its reason and ends the sampling; each rate and interval come from the reading before |
| Sampler.StoppedIsSilent | web/backend/src/telemetry/sampler.ts:128-133 | a stopped sampler reports nothing more |
| Sampler.RunTelescopes | web/backend/src/telemetry/derive.ts:23-58 | in exact arithmetic, for every run, running or stopped: the rates of its accepted samples weighted by their intervals sum exactly to the last counter minus the first |
| Sampler.SessionSampling.VerifyIdentity | web/backend/src/telemetry/sampler.ts:186-220 | the verdict on one reading and the identity held afterwards |
| Sampler.SessionSampling.Sample | web/backend/src/telemetry/sampler.ts:128-158 | one tick of the sampler |
| Options.ClusterTokens | web/backend/src/catalog/validation.ts:162-191 | the tokens of a cluster lead where its flags and its value by themselves lead |
| Options.ExpansionKeepsTheVerdict | web/backend/src/catalog/validation.ts:46-285 | a vector is accepted exactly when the one with every cluster and glued value written out is, no argument is too long and no glued count is out of bounds; then operands, path candidates and refusals agree (Guideline 5, section 12.2 of POSIX.1-2017 XBD) |
| Options.SeparateCountIsNotBounded | web/backend/src/catalog/validation.ts:104-183 | a glued count and its two tokens get the same verdict exactly when the count is within the bounds of the numeric short form |
| Options.HeadCountsTwoWays | web/backend/src/catalog/commands.ts:407-422 | `head -n0` is refused and `head -n 0` is not |
| OptionsAccepted.AcceptedIff | web/backend/src/catalog/validation.ts:46-285 | for every schema and vector: accepted if and only if each token in its turn is the value of a flag, a listed flag, a count in bounds, a cluster of listed flags, or an operand within the operand count that meets the integer, mode and program rules and is readable wherever operands are paths and it is no leading pattern |
| OptionsAccepted.AcceptedGives | web/backend/src/catalog/validation.ts:193-285 | an accepted vector gives its operands in order, and those of them that are paths |
| OptionsAccepted.RefusedForAReason | web/backend/src/catalog/validation.ts:46-285 | whatever a refusal names is what is wrong with the token it carries |
| OptionsAccepted.NoFileOutside | web/backend/src/catalog/validation.ts:271-282 | a command like cat is refused a path that the path policy refuses |
| OptionsAccepted.ClusterKeepsItsLetters | web/backend/src/catalog/validation.ts:162-191 | a cluster is taken apart without losing, adding or moving a character |
| OptionsAccepted.NothingIsGlued | web/backend/src/catalog/validation.ts:162-191 | an accepted vector, written out, has only listed flags, counts, values and operands left |
| Options.WalkCluster | web/backend/src/catalog/validation.ts:162-191 | the character loop gives the cluster's meaning |
| Options.ValidateArguments | web/backend/src/catalog/validation.ts:46-285 | the loops over the arguments and the paths give the verdict, the operands and the paths, which OptionsAccepted.AcceptedIff and OptionsAccepted.AcceptedGives tell from the schema |

## Left out

* Memory failures in the engine, and every error path that only reports them.
* The text of diagnostics, times, durations as text, and the terminal form of the monitor.
* The argv list of PROCESS_STARTED and its 400-byte budget: no rule of the record reads it.
* Truncation of labels to their buffers: the three labels fit.
* The engine bounds a line in bytes and the gateway counts UTF-16 units; one length stands for
  both, which is exact for ASCII.
* Bytes that are not UTF-8, and a chunk of stderr that ends inside a character: the gateway
  decodes chunks one by one, so the independence of chunks is proved for text.
* JSON beyond what the engine prints: no signs, fractions, literals or surrogate pairs; a
  `\u` escape at or above D800 is refused.
* A reply whose fields have other types than documented: the gateway does not look, the model
  answers "unreadable".
* Which lines of stderr are the program's own: a program that prints text shaped like an event
  is not separated from the engine by the gateway either, and the validity results are about
  the engine's lines.
* The registry's sweep of stale sessions and its capacity.
* The retained output buffers and their caps.
* Identifiers are fresh by construction in the model; the source draws them at random.
* An event that occurs twice as one and the same object in the validator's input counts as two
  here, and as one where the source compares references.
* Stage numbers and counts in payloads are integers.
* The message texts of violations and refusals.
* The global event stream and the thermal guard's refusal payload.
* The exec-status pipes: opening one can fail, which is modelled; who holds their ends is not.
* Child setup before exec (signal dispositions, process group, limits): each failure reaches
  the parent as an exec error number, which is modelled.
* Signalling a whole process group, and the order in which tracked stages are escalated.
* Parsing of `/proc/<pid>/stat` on both sides.
* The `flush` of the host stream, which no caller uses, and its backlog query.
* Sampling loops per process, timers, and metrics other than one counter.
* The scanners of awk and sed programs and the workspace path policy: given as functions.
- Options.ExpansionKeepsTheVerdict: is stated for schemas whose `--` takes no value and which, with a numeric short form, list no digit as a flag; every entry of the catalog is one.
- OptionsAccepted.NothingIsGlued: is stated for the same schemas.
- Sampler.RunTelescopes: uses exact numbers where the source rounds, and a counter that is always present and never falls, because a missing, falling or simultaneous reading reports no rate for its interval.
- Wiring.StandardDescriptors: requires descriptors 0 to 2 to be open when the redirections are applied and no file to be open at a standard descriptor it is not meant for, because such a file can be overwritten by an earlier dup2.
