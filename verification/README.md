# Zhongshu: a verified model

Zhongshu is a desktop agent: model replies arrive as a stream of deltas, are cleaned of protocol tags and shown;
work is admitted by small atomic gates, staffed, run as a graph of dependent nodes, journalled and recovered after
a crash. This project models those parts in Dafny and proves what they promise for every input, every run or every
interleaving.

| file | what it holds |
|---|---|
| `ControlFilter.dfy`, `FilterLaws.dfy`, `TagMeaning.dfy` | the incremental filter for control tokens, chunk invariance, completeness and their exact limits, and what is taken for a tag, said on characters alone |
| `StreamingMessage.dfy`, `ResponseReducer.dfy` | the message and the overlay reducer built on the filter |
| `MarkdownFold.dfy`, `MarkdownRoundTrip.dfy` | the fold over parser events, and exactly which documents it gives back |
| `AdmissionGate.dfy`, `AutoRouter.dfy` | the admission protocol as small steps of any number of submitters, jobs and cancels, and the router's hand-off built on it |
| `LiveBudget.dfy`, `LiveBudgetLaws.dfy`, `MeteredProvider.dfy` | the shared 64-bit counters over all interleavings, the token bound, and the sequential code as runs of the state machine |
| `GlyphRaster.dfy` | rectangles, glyphs and text in a flat pixel array |
| `ActionDispatch.dfy`, `ActionLaws.dfy` | the lifecycle of one action, and the journal over crashes and restarts |
| `GraphPaths.dfy`, `ExecutionGraph.dfy`, `GraphRules.dfy`, `GraphLaws.dfy`, `GraphCalls.dfy`, `GraphOutcomes.dfy`, `GraphRunner.dfy`, `GraphRecovery.dfy`, `GraphValidation.dfy`, `GraphReach.dfy`, `EffectIntents.dfy`, `GraphRestore.dfy` | the execution graph: cycles, the table of its operations, gates, history, runs of whole calls, what handlers deliver, scheduling, recovery, which checkpoints are accepted, which graphs runs can make, tasks with their effect intents, and restoring step by step |
| `Staffing.dfy` | admission of staffing proposals and their way into an organization request |
| `Escapes.dfy`, `ConversationHistory.dfy`, `AgentMemory.dfy`, `ReplyBoxes.dfy`, `TimerSource.dfy` | escapes, history compression and grouping, goals and todos and the boxes in a reply that change them, the heartbeat |
| `Text.dfy`, `Names.dfy`, `Arithmetic.dfy`, `Sets.dfy`, `Wrappers.dfy` | white space and trimming, the order of names, products, set sizes and pigeonholes, options and results |

Code that updates things step by step is a class or an array method, proved against functions of its old state; the
laws are lemmas about those functions. Protocols with several actors are state machines over atomic steps.

## What the code does not do

Where a property one would expect is false, the code is modelled as it is, a concrete case is given, and the exact
condition is proved.

- A control tag that ends its chunk leaves no newline behind, so two clean outputs can join to a complete control tag
  (`FilterLaws.ChunkedOutputCanLeak`). The stream is clean exactly when no delta, after the tags it begins with,
  completes the unfinished opening before it (`FilterLaws.StreamIsCleanIff`); tags inside the deltas do no harm
  (`FilterLaws.StreamIsCleanWhenTagsAreInside`).
- Opening an assistant message does not reset the filter. Text held back by a message that was never completed shows up
  in the next one exactly when something was held back, in its first delta (`ResponseReducer.NextMessageIsCleanIff`) and
  over its whole text (`ResponseReducer.NextMessageShowsItsOwnTextIff`).
- List items are joined onto one entry, with their breaks and the texts of their code spans, and what precedes the first
  text is lost; breaks and code spans of a quote move into a paragraph before it, code spans in table cells are dropped,
  headings lose hard breaks and the marks of code spans, and a fence without a language reads as none;
  `MarkdownRoundTrip.RoundTripIff` says which documents come back.
- A cancel that takes the handle of a job already in its last synchronous section lets a second job in;
  `AdmissionGate.StepIsSafeIff` says that this race is the only unsafe step, and `AdmissionGate.RaceIsReachable` that
  it happens. The auto-router has the same race (`AutoRouter.StepKeepsOneAtATimeIff`).
- The shared token counter and the meters differ by what lies between their updates and by what the saturating sum loses
  (`LiveBudgetLaws.TokensAreConserved`).
- The 64-bit token counter wraps. One recorded sum can take it back to below the limit that it had reached, and then new
  calls are let in (`LiveBudgetLaws.ReopeningIsReachable`); `LiveBudgetLaws.StepKeepsShutIff` says that no other step
  does that.
- An action is known to the journal by a hash of its name and arguments. It can be skipped because another one with the
  same hash completed: that never happens exactly when no other action shares the hash of one that may be skipped
  (`ActionLaws.SkipsOnlyItsOwnIff`), which no hash of bounded width achieves (`ActionLaws.BoundedHashSkipsOthers`).
- `approved` rows do not make an action skippable: it runs again (`ActionLaws.SkippedNextIff`).
- A staffing plan can name an employee whose role is empty; its command is then invalid
  (`Staffing.AdmittedCommandIsValidIff`).
- `xml_escape` passes control characters through, so its output is legal XML only when its input was
  (`Escapes.XmlIsLegalIff`).
- A node is added in whatever state the caller gives it. One that is not pending has no history: every checkpoint of
  such a graph is refused, and of every other graph it restores the graph (`GraphReach.CheckpointRoundTrip`).
- Checkpoint validation looks neither at the order in which nodes were started nor at the order of reconciliations
  (`GraphReach.OrderIsNotValidated`, `GraphReach.ListOrderIsNotValidated`), neither at whether a recovery interrupted
  all running nodes and a settlement skipped all unreachable ones (`GraphReach.WholenessIsNotValidated`) nor at whether
  they went by name (`GraphReach.NamesAreNotValidated`). What it lets in beyond the tasks that runs make is exactly what
  breaks one of these four (`GraphReach.AcceptedIsReachableIff`, `EffectIntents.AcceptedTaskIsReachableIff`); recovery
  works on all of it (`GraphRestore.RecoverFromCheckpoint`).

## Model

| member | source | states |
|---|---|---|
| `ControlFilter.ControlTokenFilter.Feed` | zhongshu-message-core/src/streaming.rs:62-140 | output and new pending buffer are exactly what the lexer emits and holds back for pending followed by delta; every law below is about that lexer |
| `ControlFilter.StripControlTokens` | zhongshu-message-core/src/streaming.rs:159-164 | one-shot stripping is one feed of a fresh filter |
| `ControlFilter.ControlTokenFilter.Flush` | zhongshu-message-core/src/streaming.rs:146-149 | gives out nothing and forgets what was held back |
| `ControlFilter.ControlIsWellFormed` | zhongshu-message-core/src/streaming.rs:16-31 | all fourteen prefixes open with `<`, are at least two characters long, and hold no other `<` and no break character |
| `TagMeaning.PrefixesAreOpenings` | zhongshu-message-core/src/streaming.rs:16-31 | the prefixes are exactly `<` and `</` before each of the seven tag names, with the closing bracket where the code has one |
| `TagMeaning.FilterMeans` | zhongshu-message-core/src/streaming.rs:75-137 | one step of the filter, said on characters alone: a whole tag in any letter case is dropped, an unfinished one is held back with all that follows, a line break is put in where a tag was dropped between other characters, and every other character is kept |
| `TagMeaning.AnyCaseIsRemoved` | zhongshu-message-core/src/streaming.rs:79-95 | every prefix with any of its small letters written as capitals, whatever follows up to its closing bracket, is removed from the front of any text |
| `TagMeaning.OutputSpellsNoOpening` | zhongshu-message-core/src/streaming.rs:62-140 | nowhere in what one feed gives out does a prefix stand, with any of its letters as capitals |
| `TagMeaning.UntouchedIff` | zhongshu-message-core/src/streaming.rs:62-140 | a text passes unchanged if and only if no whole tag stands in it and none is unfinished at its end: nothing else is taken for a tag |
| `TagMeaning.ControlIsUsual` | zhongshu-message-core/src/streaming.rs:16-31 | all of this is about the known control tags |
| `FilterLaws.StepStable` | zhongshu-message-core/src/streaming.rs:75-137 | a decision to keep or to drop never changes when more text arrives |
| `FilterLaws.LoneOpenWaits` | zhongshu-message-core/src/streaming.rs:96-105 | a single `<` is itself an unfinished prefix, so the separate end-of-input branch is never taken |
| `FilterLaws.HeldIsUndecided` | zhongshu-message-core/src/streaming.rs:62-140 | the pending buffer is always empty, an unfinished prefix, or a control opening without its `>` |
| `FilterLaws.HeldIsSuffix` | zhongshu-message-core/src/streaming.rs:62-140 | what is held back is a suffix of the input |
| `FilterLaws.FeedNeverGrows` | zhongshu-message-core/src/streaming.rs:62-140 | output and new pending buffer together are never longer than the old buffer and the delta |
| `FilterLaws.ScanSplit` | zhongshu-message-core/src/streaming.rs:62-140 | scanning a text in two parts keeps the same characters and ends with the same pending buffer as scanning it at once |
| `FilterLaws.ChunkInvariance` | zhongshu-message-core/src/streaming.rs:62-140 | for every text and every cutting: same final pending buffer, and outputs that are the one-shot output with some inserted newlines left out |
| `FilterLaws.ChunkInvarianceUpToNewlines` | zhongshu-message-core/src/streaming.rs:62-140 | through any view that ignores newlines a chunked stream equals one-shot stripping, and it is never longer |
| `FilterLaws.EmittedRunIsInInput` | zhongshu-message-core/src/streaming.rs:121-131 | removing a tag never brings two halves of a prefix together within one output |
| `FilterLaws.EmitIsClean` | zhongshu-message-core/src/streaming.rs:62-140 | nothing one feed gives out holds a control prefix anywhere, in any letter case |
| `FilterLaws.SecondPass` | zhongshu-message-core/src/streaming.rs:159-164 | stripping clean text again takes away at most an unfinished opening at its end |
| `FilterLaws.ChunkedOutputCanLeak` | zhongshu-message-core/src/streaming.rs:121-131 | false across chunks: two deltas whose outputs join to a complete `<final_answer>`, because a tag that ends its chunk leaves no newline |
| `FilterLaws.JoinIsCleanIff` | zhongshu-message-core/src/streaming.rs:62-140 | appending a clean output to clean text makes a control prefix exactly when the unfinished opening at the text's end, continued by the output, is one |
| `FilterLaws.CompletionIff` | zhongshu-message-core/src/streaming.rs:62-140 | whether a feed completes an unfinished opening can be read off the fed text: what counts is that text after the tags it begins with |
| `FilterLaws.StreamIsCleanIff` | zhongshu-message-core/src/streaming.rs:62-140 | a whole chunked stream is free of control prefixes if and only if no delta, read with the text held back and after the tags this begins with, completes the unfinished opening the stream had come to end with; computed from the deltas before any is fed |
| `FilterLaws.StreamIsCleanWhenTagsAreInside` | zhongshu-message-core/src/streaming.rs:62-140 | streams in which no fed text begins or ends with a removed tag are clean: only tags at the edge of a delta can do harm |
| `StreamingMessage.FindDivergence` | zhongshu-message-core/src/streaming.rs:263-271 | the length of the longest common prefix of the two block lists |
| `StreamingMessage.Message.Append` | zhongshu-message-core/src/streaming.rs:197-208 | new state as the abstract operation says; the result is the first block that may differ from before |
| `StreamingMessage.Message.Sync` | zhongshu-message-core/src/streaming.rs:212-221 | re-parses the buffer; returns the divergence, or 0 for an empty buffer |
| `StreamingMessage.Message.Finish` | zhongshu-message-core/src/streaming.rs:225-229 | discards pending text, marks the message complete and re-parses |
| `StreamingMessage.Message.Interrupt` | zhongshu-message-core/src/streaming.rs:231-233 | changes only the state of the message |
| `StreamingMessage.Message.Fail` | zhongshu-message-core/src/streaming.rs:235-237 | changes only the state of the message |
| `StreamingMessage.Message.SetContent` | zhongshu-message-core/src/streaming.rs:241-245 | replaces the buffer unfiltered and parses it |
| `StreamingMessage.EveryRunStaysInSync` | zhongshu-message-core/src/streaming.rs:197-245 | in every run of operations the blocks are the parse of the buffer |
| `StreamingMessage.FreshIsInSync` | zhongshu-message-core/src/streaming.rs:185-192 | a new message is in sync, as the parser finds nothing in the empty text |
| `StreamingMessage.AppendedTextIsStrippedText` | zhongshu-message-core/src/streaming.rs:197-208 | for every cutting into appended deltas the visible characters of the buffer are those of one-shot stripping, despite dropped blank outputs |
| `StreamingMessage.BufferHoldsTheOutputs` | zhongshu-message-core/src/streaming.rs:197-208 | whatever is appended, the buffer gets the outputs of the filter that show anything, whole and in order |
| `StreamingMessage.StateIsTheLast` | zhongshu-message-core/src/streaming.rs:225-245 | in every run the message is streaming until it is finished, interrupted, failed or given its content; the last of these decides, and a finished message holds nothing back |
| `ResponseReducer.Reducer.ReduceResponses` | zhongshu-orb/src/handler.rs:1433-1487 | drains the queue in order, as a fold of the single-event reaction, and reports whether there was anything |
| `ResponseReducer.Reducer.HandleOne` | zhongshu-orb/src/handler.rs:1438-1484 | run-id gate, message-id gate and filter for one event |
| `ResponseReducer.ReactStream` | zhongshu-orb/src/handler.rs:1433-1487 | for every stream of bracketed messages mixed with other runs and messages the overlay is told exactly the expected effects, and nothing is left open or held back |
| `ResponseReducer.OtherMessageCutsOff` | zhongshu-orb/src/handler.rs:1453-1464 | a message of another role that starts inside an assistant message cuts it off: whatever comes until the next assistant message shows nothing, and nothing stays held back |
| `ResponseReducer.MessageShowsWhatWasHeldToo` | zhongshu-orb/src/handler.rs:1453-1483 | whatever was held back when a message began, what is pushed for it is, up to newlines, the stripped text of that followed by exactly the message's deltas |
| `ResponseReducer.EachMessageShowsItsOwnText` | zhongshu-orb/src/handler.rs:1465-1483 | with nothing held back that is the stripped text of exactly the message's own deltas |
| `ResponseReducer.FirstDeltaShows` | zhongshu-orb/src/handler.rs:1453-1474 | what an opening message and its first delta show, from whatever was held back before |
| `ResponseReducer.NextMessageIsCleanIff` | zhongshu-orb/src/handler.rs:1453-1464 | opening an assistant message does not reset the filter: its first delta is free of earlier text, whatever it is, if and only if nothing was held back |
| `ResponseReducer.LeakingDelta` | zhongshu-orb/src/handler.rs:1453-1474 | for every non-empty pending buffer there is a delta that shows the leak |
| `ResponseReducer.NextMessageShowsItsOwnTextIff` | zhongshu-orb/src/handler.rs:1453-1483 | over all its deltas: every next message shows its own text, up to newlines, if and only if nothing was held back before it |
| `ResponseReducer.SecondMessageFindsHeldText` | zhongshu-orb/src/handler.rs:1433-1487 | three events take a new reducer to a second message that opens while text of the first is held back |
| `MarkdownFold.BlockBuilder.Handle` | zhongshu-message-core/src/parser.rs:43-242 | one event is one step of the fold |
| `MarkdownFold.Parse` | zhongshu-message-core/src/parser.rs:10-251 | the loop over the events gives the fold of the single-event step and flushes the last paragraph |
| `MarkdownRoundTrip.ReadsOne` | zhongshu-message-core/src/parser.rs:36-250 | after the events of any one document the fold is at rest again, with exactly that document's blocks added |
| `MarkdownRoundTrip.ReadsAll` | zhongshu-message-core/src/parser.rs:36-250 | the same for any list of documents, in order |
| `MarkdownRoundTrip.ReadsParagraph` | zhongshu-message-core/src/parser.rs:46-48 | a paragraph comes back with its pieces rendered, or not at all when it has no text |
| `MarkdownRoundTrip.ReadsFence` | zhongshu-message-core/src/parser.rs:49-56 | a code block comes back with its texts joined |
| `MarkdownRoundTrip.ReadsHeading` | zhongshu-message-core/src/parser.rs:57-68 | a heading comes back with its level and its text, without the marks of code spans and without hard breaks |
| `MarkdownRoundTrip.ReadsGrid` | zhongshu-message-core/src/parser.rs:81-94 | a table of any shape comes back with the words of its cells |
| `MarkdownRoundTrip.ReadsItems` | zhongshu-message-core/src/parser.rs:170-175 | the texts, code spans and breaks of all items are joined onto one entry, and what precedes the first text is lost |
| `MarkdownRoundTrip.ReadsQuote` | zhongshu-message-core/src/parser.rs:176-236 | breaks and code spans inside a quote end up in a paragraph before it |
| `MarkdownRoundTrip.KeptIff` | zhongshu-message-core/src/parser.rs:36-250 | a document comes back unchanged exactly when it is faithful: no empty fence language, at most one list item, which begins with text and holds no code span, no hard break or code span in a heading, only words in quotes and table cells |
| `MarkdownRoundTrip.RoundTripIff` | zhongshu-message-core/src/parser.rs:10-251 | for every list of documents, with texts cut in any way: parsing the events gives the blocks they stand for if and only if every document is faithful |
| `MarkdownRoundTrip.StyledRoundTripIff` | zhongshu-message-core/src/parser.rs:36-250 | the same with emphasis, links and other inline tags put in anywhere: they change nothing |
| `MarkdownRoundTrip.MarkupIsText` | zhongshu-message-core/src/parser.rs:214-223 | markup between documents is kept as plain text, at the front of the paragraph that follows or as a last paragraph of its own |
| `MarkdownRoundTrip.CodeIsVerbatim` | zhongshu-message-core/src/parser.rs:49-56 | a code block keeps all text, markup and line breaks inside it, after any documents |
| `AdmissionGate.StepKeepsInv` | zhongshu-orb/src/delegation_service.rs:60-82 | every step of a submitter, job or canceller that is not a race keeps the invariant |
| `AdmissionGate.RunKeepsInv` | zhongshu-orb/src/delegation_service.rs:60-189 | so does every interleaving of any number of them |
| `AdmissionGate.InvMeans` | zhongshu-orb/src/delegation_service.rs:163-168 | one live job at a time, a stored handle is the live job's own, a finishing job finds its own handle, a free gate has empty cells |
| `AdmissionGate.AdmissionIsSafe` | zhongshu-orb/src/organization_service.rs:161-168 | all of this in every race-free run from the start; the organization controller has the same protocol |
| `AdmissionGate.CancelStopsTheJob` | zhongshu-orb/src/delegation_service.rs:175-189 | a cancel that hits a job before its tail leaves the gate free and clean and stops the job: at once, or when the poll it is in comes to its next suspension point |
| `AdmissionGate.StoppingJobOnlyEnds` | zhongshu-orb/src/delegation_service.rs:175-189 | a job that was told to stop in the middle of a poll can only come to the end of it, and touches no shared cell on the way |
| `AdmissionGate.JobEndsAndFreesTheGate` | zhongshu-orb/src/delegation_service.rs:60-168 | a job that is not cancelled frees the gate and leaves slot and session empty once its own remaining steps are taken, from wherever it is |
| `AdmissionGate.StepIsSafeIff` | zhongshu-orb/src/delegation_service.rs:163-189 | a step is safe for all later runs if and only if it is not a cancel racing with the job's tail |
| `AdmissionGate.RaceIsReachable` | zhongshu-orb/src/delegation_service.rs:60-189 | the race does happen: a race-free run from the start leads to it, and the cancel going on from there lets a second job in |
| `AutoRouter.StepKeepsExactlyOnce` | zhongshu-orb/src/auto_delegation_service.rs:41-102 | every step keeps the books of where each objective has arrived |
| `AutoRouter.RoutedExactlyOnce` | zhongshu-orb/src/auto_delegation_service.rs:41-102 | over every interleaving, races included, no objective is handed over twice |
| `AutoRouter.RoutedAsDecided` | zhongshu-orb/src/auto_delegation_service.rs:71-85 | over every interleaving: what has arrived at the organization was decided for several agents and found its gate free, and what has arrived at the inbox was decided for one or found it taken |
| `AutoRouter.AcceptedObjectiveIsDelivered` | zhongshu-orb/src/auto_delegation_service.rs:67-87 | every accepted objective that is not stopped arrives once its own steps are taken, at the organization if it was decided for several agents and its gate is free when handed over, at the inbox otherwise, and nowhere else |
| `AutoRouter.StoppedObjectiveArrivesNowhere` | zhongshu-orb/src/auto_delegation_service.rs:94-101 | a stopped objective has arrived nowhere and never will |
| `AutoRouter.JobFreesTheRouter` | zhongshu-orb/src/auto_delegation_service.rs:65-69 | once a job has taken its own steps the router is free and holds no handle, whatever was decided |
| `AutoRouter.SubmittedCanBeCancelled` | zhongshu-orb/src/auto_delegation_service.rs:41-92 | a free router takes the objective, is busy, and has its handle on hand when the submitter returns |
| `AutoRouter.CancelStopsTheObjective` | zhongshu-orb/src/auto_delegation_service.rs:94-101 | in every interleaving: a cancel that finds the handle of an objective that is not planned to the end stops it, and all it changes besides is that the router is free and holds no handle |
| `AutoRouter.StepKeepsOneAtATimeIff` | zhongshu-orb/src/auto_delegation_service.rs:65-101 | a step keeps one claim at a time if and only if it is not a cancel racing with the end of the planning |
| `AutoRouter.OneObjectiveAtATime` | zhongshu-orb/src/auto_delegation_service.rs:41-101 | without such a race at most one objective is on its way to a decision, the router is busy as long as there is one, and accepts the next exactly when it is not |
| `LiveBudget.ShareMoves` | xtask/src/benchmark.rs:478-521 | each atomic step moves a call's share of each counter by what the step adds |
| `LiveBudget.StepKeepsBalance` | xtask/src/benchmark.rs:235-277 | every step of every interleaving keeps every 64-bit counter equal, with wrap-around, to the sum of what the calls have done |
| `LiveBudget.RunKeepsBalance` | xtask/src/benchmark.rs:471-521 | so does every run |
| `LiveBudget.FreshIsBalanced` | xtask/src/benchmark.rs:226-233 | fresh counters agree with no calls |
| `LiveBudgetLaws.RequestsAreAccountedFor` | xtask/src/benchmark.rs:251-263 | in every run: admitted is the number of calls past admission and at most the limit; per meter, requests are successes, failures and unsettled calls, without wrap-around |
| `LiveBudgetLaws.TokensAreConserved` | xtask/src/benchmark.rs:488-506 | up to 2^64 the tokens on all meters are those on the shared counter, those between meter and counter, and those lost to the saturating sum |
| `LiveBudgetLaws.TotalsAgreeIff` | xtask/src/benchmark.rs:488-506 | below 2^64 tokens, shared counter and meters agree exactly when no call stands between the two |
| `LiveBudgetLaws.OnlyCallsPastTheLoadGoOn` | xtask/src/benchmark.rs:235-243 | once the limit is reached only calls that had already passed the load check are ever admitted, reach the provider or add tokens, in every run in which no recorded sum wraps the counter to below the limit |
| `LiveBudgetLaws.StepKeepsShutIff` | xtask/src/benchmark.rs:266-277 | at the limit a step lets no later run without such a wrap let in a new call if and only if it is not such a wrap itself |
| `LiveBudgetLaws.ReopeningIsReachable` | xtask/src/benchmark.rs:266-277 | two calls from fresh counters reach the limit and then wrap the counter to zero |
| `LiveBudgetLaws.StepStaysInOrder` | xtask/src/benchmark.rs:288-297 | the invariant of sequential runs with a provider that honours the cap |
| `LiveBudgetLaws.SequentialTokenBound` | xtask/src/benchmark.rs:266-297 | in every such run the counter is at most the limit plus the last recorded call's prompt tokens |
| `MeteredProvider.LiveBudgetGuard.AdmitRequest` | xtask/src/benchmark.rs:235-264 | admits if and only if tokens are below the limit, time is left and requests are below the limit; counts exactly then; which refusal comes first |
| `MeteredProvider.LiveBudgetGuard.RecordTokens` | xtask/src/benchmark.rs:266-277 | wraps the counter, and reports the limit by the saturating total |
| `LiveBudget.CapIsLeast` | xtask/src/benchmark.rs:288-297 | the cap is the least of what is left, the largest 32-bit value and what was requested |
| `MeteredProvider.LiveBudgetGuard.ClampRequestTokens` | xtask/src/benchmark.rs:288-297 | the request's cap is what is left, as a 32-bit value, and never more than was requested |
| `MeteredProvider.MeteredProvider.Chat` | xtask/src/benchmark.rs:471-521 | a call made alone is a run of the state machine from begin to a final point; its reply is exactly determined: the refusal that comes first, the error, or the response unless its saturated tokens take the counter past the limit; and so are counter, admissions and its meter |
| `MeteredProvider.MeteredProvider.SettleUsage` | xtask/src/benchmark.rs:488-506 | a response with usage: counted, metered, recorded unless zero; the response is passed on exactly when old counter and saturated sum stay within the limit, or the limit is the largest number |
| `MeteredProvider.MeteredProvider.Enter` | xtask/src/benchmark.rs:475 | admission or refusal of a call is the first steps of its run; the refusal names the check that failed first, and only an admission is counted |
| `MeteredProvider.MeteredProvider.Conclude` | xtask/src/benchmark.rs:487-521 | what the provider's outcome does to the reply, the shared counter and each of the call's own counters |
| `MeteredProvider.MeteredProvider.AddUsage` | xtask/src/benchmark.rs:491-504 | prompt and completion go to their own counters; zero usage ends the call |
| `MeteredProvider.MeteredProvider.RecordUsage` | xtask/src/benchmark.rs:505 | the recorded sum goes to the shared counter |
| `GlyphRaster.FillRect` | zhongshu-orb/src/overlay_windows.rs:403-421 | the buffer is the old one with exactly the in-image pixels of the rectangle set; no index leaves the buffer |
| `GlyphRaster.DrawGlyph` | zhongshu-orb/src/overlay_windows.rs:446-474 | exactly the in-image pixels whose cell is a set bit of the glyph are set, for every position, size and scale |
| `GlyphRaster.DrawText` | zhongshu-orb/src/overlay_windows.rs:424-443 | exactly the in-image pixels of the characters drawn before the right edge are set |
| `GlyphRaster.PaintedPixel` | zhongshu-orb/src/overlay_windows.rs:413-420 | what painting means at pixel (px, py), by index arithmetic |
| `GlyphRaster.PaintedOutside` | zhongshu-orb/src/overlay_windows.rs:413-420 | elements past the image keep their value |
| `GlyphRaster.SquareIsCell` | zhongshu-orb/src/overlay_windows.rs:462-471 | the square filled for a cell holds exactly the pixels that divide to that cell |
| `GlyphRaster.CharColumn` | zhongshu-orb/src/overlay_windows.rs:436-442 | every pixel of a character lies in that character's own column, and characters after the first are never clipped at the right |
| `GlyphRaster.CharactersAreDisjoint` | zhongshu-orb/src/overlay_windows.rs:436-442 | different characters of a line never touch the same pixel |
| `GlyphRaster.TextPixel` | zhongshu-orb/src/overlay_windows.rs:424-474 | a pixel is in the text exactly when the character, column and row computed from its own coordinates say so |
| `GlyphRaster.BitMeans` | zhongshu-orb/src/overlay_windows.rs:457-462 | column 0 of a glyph row is its fifth bit from the right, column 4 its last |
| `ActionDispatch.ActionRuntime.DispatchWith` | zhongshu-core/src/action/dispatcher.rs:37-257 | the effects of one dispatch in order, its result, and the journal, also without a ledger |
| `ActionDispatch.ActionRuntime.Emit` | zhongshu-core/src/action/journal.rs:16-40 | rows are appended only when there is a ledger |
| `ActionDispatch.ActionRuntime.FinishApproval` | zhongshu-core/src/action/dispatcher.rs:135-217 | the wait ends in a second done callback and the row for its outcome |
| `ActionDispatch.ActionRuntime.IsToolCompleted` | zhongshu-core/src/core/ledger.rs:143-154 | true exactly when a completed row for the key exists |
| `ActionDispatch.EffectRows` | zhongshu-core/src/action/journal.rs:16-40 | a dispatch that is not skipped writes one start and one end |
| `ActionDispatch.DispatchEnds` | zhongshu-core/src/action/dispatcher.rs:37-257 | skipped without any effect, or started, written down, executed and ended as a table of all cases says, for caller, journal, callbacks and counter; with an unknown outcome exactly when it did not run to its end and its registered effect, or else the one inferred, is not read-only |
| `ActionDispatch.AlwaysExecutedIff` | zhongshu-core/src/tool/spec.rs:277-297 | exactly these tools are never skipped |
| `ActionDispatch.ReadOnlyIff` | zhongshu-core/src/tool/spec.rs:253-273 | exactly these tools are taken to change something |
| `ActionLaws.HistoryIsSafe` | zhongshu-core/src/action/dispatcher.rs:47-83 | over any dispatches, crashes and restarts on one journal nothing skip-eligible is executed while its key is completed |
| `ActionLaws.CompletedIsNeverExecutedAgain` | zhongshu-core/src/action/dispatcher.rs:47-83 | once a row says a key completed, no skip-eligible tool is executed under that key again |
| `ActionLaws.SkippedNextIff` | zhongshu-core/src/action/dispatcher.rs:47-50 | the next dispatch of a key is skipped exactly when the key had completed or the last dispatch ended in normal success; `approved` does not count |
| `ActionLaws.DispatchRows` | zhongshu-core/src/action/dispatcher.rs:68-257 | start and end rows carry the same tool, arguments and key |
| `ActionLaws.SessionIsBracketed` | zhongshu-core/src/action/dispatcher.rs:68-257 | the rows of any sequence of dispatches are matched pairs |
| `ActionLaws.CrashPrefixIsCutoff` | zhongshu-core/src/action/dispatcher.rs:68-257 | wherever a process is cut off there is at most one unmatched start, and it is last |
| `ActionLaws.UnmatchedStartIsReported` | zhongshu-core/src/core/ledger.rs:209-246 | the reconciliation query returns that start |
| `ActionLaws.OneActionInFlightPerCrash` | zhongshu-core/src/core/ledger.rs:209-246 | after any crashes and restarts the query returns at most one action per crash |
| `ActionLaws.JournalSaysWhatWasTold` | zhongshu-core/src/action/dispatcher.rs:108-257 | one for one, the ends on the journal say what callers were told |
| `ActionLaws.OnlyNormalCompletionsCount` | zhongshu-core/src/action/dispatcher.rs:219-257 | the tool-call counter grows by exactly the executions that ended normally |
| `ActionLaws.HistoryIsKeyed` | zhongshu-core/src/action/dispatcher.rs:258-264 | after any dispatches, crashes and restarts every row carries the hash of its own name and arguments |
| `ActionLaws.SkipsOnlyItsOwnIff` | zhongshu-core/src/action/dispatcher.rs:47-66 | only actions that had themselves completed are ever skipped, if and only if no other action shares the hash of one that may be skipped |
| `ActionLaws.BoundedHashSkipsOthers` | zhongshu-core/src/action/dispatcher.rs:258-264 | under every hash of bounded width some action is skipped that had not completed |
| `Escapes.JsonEscape` | xtask/src/main.rs:1194-1210 | the loop writes each character's escape in order |
| `Escapes.JsonStringArray` | xtask/src/main.rs:1169-1181 | the array text for a list of strings |
| `Escapes.EscapeIsShortest` | xtask/src/main.rs:1194-1210 | two characters for the five with a short escape, six with small hex digits for the other control characters, and any other character as it is |
| `Escapes.ReadsEscape` | xtask/src/main.rs:1197-1207 | every character is read back from its own escape, whatever follows |
| `Escapes.ReadsEscaped` | xtask/src/main.rs:1194-1210 | reading stops at the quote the writer put there and gives the string back |
| `Escapes.JsonArrayRoundTrip` | xtask/src/main.rs:1169-1181 | section 7 of RFC 8259 reads every list of strings back from its array |
| `Escapes.ChainIsOneMap` | xtask/src/main.rs:1212-1219 | the five chained replacements are one simultaneous map of characters |
| `Escapes.XmlRoundTrip` | xtask/src/main.rs:1212-1219 | section 4.6 of XML 1.0 reads every text back; nothing written is markup |
| `Escapes.XmlIsLegalIff` | xtask/src/main.rs:1212-1219 | what is written is legal XML exactly when the text was: control characters pass through |
| `Staffing.AdmitProposal` | zhongshu-core/src/agent/auto_delegation.rs:168-281 | several agents if and only if the proposal is admissible, and then exactly the trimmed staffing; otherwise the single-agent decision |
| `Staffing.MatchesMeans` | zhongshu-core/src/agent/auto_delegation.rs:221-262 | a requirement matches exactly when it gives an employee and a duty, and the first profile of that name has the role and every capability asked for |
| `Staffing.AdmissibleMeans` | zhongshu-core/src/agent/auto_delegation.rs:168-281 | in numbers: two or three workers, no mutation, merge risk at most 50, separability at least 60 or benefit at least 70, distinct employees of the roster that match |
| `Staffing.Staff` | zhongshu-core/src/agent/auto_delegation.rs:219-262 | the loop: distinct employees, each requirement matched by the first profile of that name |
| `Staffing.CheckRequirement` | zhongshu-core/src/agent/auto_delegation.rs:227-261 | a requirement is accepted exactly when it matches the roster, and is then trimmed |
| `Text.WhitespaceIsListed` | zhongshu-core/src/agent/auto_delegation.rs:220 | white space is the 25 characters of the Unicode property that `trim` uses |
| `Staffing.CapabilitiesFit` | zhongshu-core/src/agent/auto_delegation.rs:242-254 | capabilities fit when none is blank and the employee has each |
| `Staffing.ValidOrganizationTask` | zhongshu-orb/src/overlay_contract.rs:917-975 | true exactly for valid commands: limits, distinct employees, scopes, safe relative paths, matching mutation scopes |
| `Staffing.ValidTaskMeans` | zhongshu-orb/src/overlay_contract.rs:917-975 | said without the lists the checks build: objective, one to three requirements with role, duty and capabilities, everyone chosen at most once, and no files, or files of exactly those chosen that lie safely inside |
| `Staffing.SelectEmployees` | zhongshu-orb/src/overlay_contract.rs:926-931 | true exactly when the chosen employees are not blank and distinct, and then their set |
| `Staffing.ScopeEmployees` | zhongshu-orb/src/overlay_contract.rs:932-945 | true exactly when scopes name distinct employees and hold safe files, and then their set |
| `Staffing.StaysInsideIff` | zhongshu-orb/src/overlay_contract.rs:942-950 | a path is safe in form if and only if it does not begin with a slash and nowhere has two dots between slashes |
| `Staffing.StaffingSurvivesIff` | zhongshu-orb/src/organization_service.rs:606-640 | a decision's staffing and mode come back from its command exactly when all its roles and capabilities are trimmed |
| `Staffing.AdmittedPlanSurvives` | zhongshu-orb/src/auto_delegation_service.rs:104-133 | every admitted plan reaches the organization request unchanged |
| `Staffing.AdmittedCommandIsValidIff` | zhongshu-orb/src/auto_delegation_service.rs:104-133 | the command of an admitted plan is valid if and only if the objective is not blank and every chosen employee has a role |
| `ConversationHistory.History.Compress` | zhongshu-orb/src/app.rs:1718-1741 | leaves a suffix and drops the least even number of messages that will do, without underflow |
| `ConversationHistory.LeastDropIsUnique` | zhongshu-orb/src/app.rs:1733-1736 | there is exactly one such number |
| `ConversationHistory.CostMeans` | zhongshu-orb/src/app.rs:1726 | a message is estimated at one more than a quarter of its bytes |
| `ConversationHistory.Utf8LengthCounts` | zhongshu-orb/src/app.rs:1726 | its bytes are counted as UTF-8: one a character, and one more from each bound on |
| `ConversationHistory.GroupRecent` | zhongshu-orb/src/app.rs:639-683 | the units flatten back to the history, message by message with its content and `user` or else the assistant as speaker, and are exchanges exactly at the adjacent user/assistant pairs |
| `ConversationHistory.CoversOneMore` | zhongshu-orb/src/app.rs:644-680 | one pass of the grouping loop |
| `ConversationHistory.CompressionKeepsExchangesWhole` | zhongshu-orb/src/app.rs:1733-1736 | a history of whole exchanges stays one: compression never tears an exchange apart |
| `AgentMemory.Store.MarkCompleted` | zhongshu-orb/src/agent.rs:168-182 | the first active goal of the text is completed; reports whether there was one |
| `AgentMemory.Store.AddNewGoal` | zhongshu-orb/src/agent.rs:147-165 | adds an active goal unless one has that text |
| `AgentMemory.Store.ExtractGoalCompletions` | zhongshu-orb/src/agent.rs:247-257 | completes the goal of each checked box, in order |
| `AgentMemory.Store.ExtractTodos` | zhongshu-orb/src/agent.rs:185-204 | adds each parsed box text that is not open yet, in order |
| `AgentMemory.Store.ArchiveCompletedGoals` | zhongshu-orb/src/agent.rs:209-227 | archives exactly the earliest completed goals beyond the bound |
| `AgentMemory.RunKeepsNoDuplicates` | zhongshu-orb/src/agent.rs:147-257 | no run of operations ever gives two active goals, or two open todos, the same text |
| `AgentMemory.ArchivingKeepsTheLatest` | zhongshu-orb/src/agent.rs:209-227 | the bound is met exactly, the latest completed goals stay, texts, order and other goals are untouched, and doing it again changes nothing |
| `ReplyBoxes.BoxesMean` | zhongshu-orb/src/agent.rs:297-303 | the parser finds exactly the items that a line of the reply marks so, between any white space |
| `ReplyBoxes.CompletionsMean` | zhongshu-orb/src/agent.rs:247-257 | items marked with an `x` complete the first active goal of their text, and nothing else changes |
| `ReplyBoxes.TodosMean` | zhongshu-orb/src/agent.rs:185-204 | items with a blank box are open todos afterwards; only those are added, each once, behind the others, and nothing else changes |
| `ReplyBoxes.AddThenComplete` | zhongshu-orb/src/agent.rs:147-182 | an added goal is active, and completing it leaves it completed and the others as they were |
| `TimerSource.Timer.PollOnce` | zhongshu-core/src/source.rs:56-69 | ticks exactly when never ticked or the interval has passed, and then remembers the time |
| `TimerSource.Timer.PollAll` | zhongshu-core/src/source.rs:308-326 | polling again and again gives the tick times |
| `TimerSource.TickRateIsBounded` | zhongshu-core/src/source.rs:56-69 | n ticks take at least n - 1 intervals; at most one more tick than whole intervals in any stretch of polling |
| `TimerSource.TicksKeepComing` | zhongshu-core/src/source.rs:56-69 | with polls at most a gap apart a tick comes at most two gaps after it is due |
| `TimerSource.TickOrNot` | zhongshu-core/src/source.rs:56-69 | a new timer ticks at its first poll, and at each later one exactly when it reads at least one interval after the tick before |
| `GraphPaths.HasPath` | zhongshu-core/src/agent/execution_graph.rs:992-1008 | the breadth-first search is true exactly when the target can be reached |
| `GraphPaths.StaysAcyclicIff` | zhongshu-core/src/agent/execution_graph.rs:361-366 | adding an edge keeps an acyclic graph acyclic exactly when there is no way back |
| `GraphPaths.AcyclicIffNoWayBack` | zhongshu-core/src/agent/execution_graph.rs:361-366 | having a ranking is the same as no edge being travelled back |
| `Names.LessMeans` | zhongshu-core/src/agent/execution_graph.rs:291-300 | names are ordered by the first character in which they differ, the shorter one first |
| `GraphRunner.Runner.AddNewNode` | zhongshu-core/src/agent/execution_graph.rs:320-337 | refuses blank and known names and a second apply gate, with the error the code gives; the node is stored in whatever state it carries |
| `GraphRunner.Runner.AddNewEdge` | zhongshu-core/src/agent/execution_graph.rs:339-370 | refuses exactly missing ends, started targets, duplicates and cycles, with the error the code gives |
| `GraphRunner.Runner.Start` | zhongshu-core/src/agent/execution_graph.rs:441-446 | starts exactly the ready nodes |
| `GraphRunner.Runner.SetState` | zhongshu-core/src/agent/execution_graph.rs:962-990 | the state changes and the history grows by the numbered transition |
| `GraphRunner.Runner.Fail` | zhongshu-core/src/agent/execution_graph.rs:504-510 | only a running node fails |
| `GraphRunner.Runner.Cancel` | zhongshu-core/src/agent/execution_graph.rs:512-538 | only pending and running nodes are cancelled |
| `GraphRunner.Runner.Complete` | zhongshu-core/src/agent/execution_graph.rs:471-502 | artifacts are checked before the move; on any error nothing changes |
| `GraphRunner.Runner.Reconcile` | zhongshu-core/src/agent/execution_graph.rs:540-596 | reason, evidence, state and artifacts are checked in order; success records move, artifacts and reconciliation together |
| `GraphRules.OperationsKeepTable` | zhongshu-core/src/agent/execution_graph.rs:320-632 | for every graph and operation: it takes effect exactly when a table over the states of the nodes says so, with exactly the effect given there, and otherwise nothing changes |
| `GraphRules.RefusalsAreInOrder` | zhongshu-core/src/agent/execution_graph.rs:320-596 | every operation makes its checks in the order of a table and is refused with the error of the first that fails; if none fails there is an answer |
| `GraphOutcomes.CompletionDelivers` | zhongshu-core/src/agent/execution_graph.rs:471-502 | a running node is completed exactly with artifacts that are its own and new, and then these and the old ones are there; otherwise the error is that of the first bad one |
| `GraphRunner.Runner.StartReadyBatch` | zhongshu-core/src/agent/execution_graph.rs:451-469 | starts all nodes if and only if all are ready and distinct, otherwise none |
| `GraphRunner.Runner.SettleUnreachable` | zhongshu-core/src/agent/execution_graph.rs:601-632 | skips the first unreachable node by name until no pending node has a broken dependency; the answer names exactly the nodes skipped, each once, the history grows by exactly these skips, and nothing else changes |
| `GraphRunner.Runner.Execute` | zhongshu-core/src/agent/execution_graph.rs:897-926 | an error exactly when the handler succeeds with an artifact that is not the node's own or not new, and then that of the first such one, with the graph as it was; otherwise the node ends as answered, its moves are the last ones, and the artifacts are the old ones and exactly those delivered |
| `GraphRunner.Runner.RunPass` | zhongshu-core/src/agent/execution_graph.rs:890-933 | one pass over the ready nodes by name: all that the handler finished are listed with its answers, each moved and delivered exactly as answered; if there are none, every ready node was deferred and nothing changed; an error is that of a refused answer |
| `GraphRunner.Runner.RunReady` | zhongshu-core/src/agent/execution_graph.rs:879-933 | from any graph a run of whole calls: ends settled; the report lists exactly the nodes skipped and executed, each once and with its outcome; the artifacts at the end are the old ones and exactly those of the answers, and every node's new history is what its answer or skip makes of it; when stalled, the ready nodes by name all deferred; stalled exactly when ready nodes remain; well-formedness and the invariants are kept; in a well-formed graph a handler that never defers leaves no pending node unless some node is running or in doubt |
| `GraphRunner.Progress` | zhongshu-core/src/agent/execution_graph.rs:418-439 | a settled acyclic graph with pending nodes, none running and none in doubt, has a ready node |
| `GraphLaws.DependenciesLast` | zhongshu-core/src/agent/execution_graph.rs:418-439 | satisfied dependencies stay satisfied and broken ones stay broken under every move |
| `GraphLaws.RunKeepsSound` | zhongshu-core/src/agent/execution_graph.rs:320-632 | whatever the states in which nodes are added, every run keeps shape, numbering, gates, artifacts and reconciliations |
| `GraphLaws.AddNodeHistoryIff` | zhongshu-core/src/agent/execution_graph.rs:320-337 | adding a node keeps the history exact if and only if the node is pending |
| `GraphLaws.HistoryIff` | zhongshu-core/src/agent/execution_graph.rs:320-632 | from an exact history a run ends in one if and only if every node it adds is pending: no later operation repairs it |
| `GraphLaws.StepKeepsInv` | zhongshu-core/src/agent/execution_graph.rs:320-632 | every operation, a node added as pending included, keeps shape, history, gates, artifacts, reconciliations and the order of both |
| `GraphLaws.RunKeepsInv` | zhongshu-core/src/agent/execution_graph.rs:320-632 | so does every run that adds its nodes as pending, recoveries included |
| `GraphLaws.RunKeepsInvIff` | zhongshu-core/src/agent/execution_graph.rs:320-632 | from the empty graph a run keeps all of it if and only if it adds its nodes as pending |
| `GraphRecovery.DependenciesComeFirst` | zhongshu-core/src/agent/execution_graph.rs:418-446 | in every graph any run can make, nodes added in any state included, a started node's requirements have succeeded and what it comes after has finished: edges lead only into pending nodes |
| `GraphRecovery.SkippedForAReason` | zhongshu-core/src/agent/execution_graph.rs:601-632 | a skipped node has a requirement that failed, was skipped or was cancelled if and only if a move skipped it; otherwise it was added so and has no dependency |
| `GraphRecovery.OutcomesAreFinal` | zhongshu-core/src/agent/execution_graph.rs:935-990 | succeeded, failed, skipped and cancelled never change |
| `GraphRecovery.RecoverNodes` | zhongshu-core/src/agent/execution_graph.rs:669-687 | from any graph: running nodes become in doubt, unreachable ones are skipped, both by name and reported exactly, as are the ready ones, the history is only added to, nothing else changes; on a well-formed graph this is the recovery that runs make, and the result is well formed; the invariants are kept |
| `GraphRecovery.InterruptRunning` | zhongshu-core/src/agent/execution_graph.rs:669-684 | every running node, and no other, becomes in doubt, one after the other by name, and nothing else changes |
| `GraphRecovery.WellFormedRoundTrip` | zhongshu-core/src/agent/execution_graph.rs:642-659 | a checkpoint of a well-formed graph restores exactly that graph, in whatever order maps are listed |
| `GraphReach.CheckpointRoundTrip` | zhongshu-core/src/agent/execution_graph.rs:642-876 | the checkpoint of any run's graph restores it if the run added its nodes as pending, and is refused as an invalid snapshot otherwise |
| `GraphValidation.AcceptedIff` | zhongshu-core/src/agent/execution_graph.rs:696-876 | a checkpoint is accepted if and only if it lists a graph that is well formed |
| `GraphCalls.CallIsWhole` | zhongshu-core/src/agent/execution_graph.rs:597-632 | every call, settling and recovery included, leaves its interruptions and skips in whole blocks: no node still running after the last interruption, nothing unreachable after the last skip |
| `GraphCalls.CallGoesByName` | zhongshu-core/src/agent/execution_graph.rs:597-687 | every call interrupts the first running node by name and skips the first unreachable one, along all edges that must have been there |
| `GraphCalls.RunIsWhole` | zhongshu-core/src/agent/execution_graph.rs:597-687 | every run does both |
| `GraphReach.ReachableIff` | zhongshu-core/src/agent/execution_graph.rs:320-687 | a graph is made by some run of calls that adds its nodes as pending if and only if it is well formed, every start had its requirements met and every skip a broken one, reconciliations are listed in the order of their moves, and interruptions and skips come in whole blocks and go by name |
| `GraphReach.RunsStayReachable` | zhongshu-core/src/agent/execution_graph.rs:320-687 | further calls lead from a graph that a run can make to one that a run can make |
| `GraphReach.AcceptedIsReachableIff` | zhongshu-core/src/agent/execution_graph.rs:696-876 | an accepted checkpoint is one a run can make if and only if its moves respect the dependencies, its reconciliations are in order, and its interruptions and skips come in whole blocks and go by name |
| `GraphReach.WholenessIsNotValidated` | zhongshu-core/src/agent/execution_graph.rs:696-876 | one of two running nodes interrupted, one of two unreachable nodes skipped: well formed, in both orders and by name, so accepted, and made by no run |
| `GraphReach.NamesAreNotValidated` | zhongshu-core/src/agent/execution_graph.rs:669-684 | two nodes interrupted against the order of their names: well formed, in both orders and in a whole block, and made by no run |
| `GraphReach.OrderIsNotValidated` | zhongshu-core/src/agent/execution_graph.rs:696-876 | a node started before what it requires: accepted, and made by no run |
| `GraphReach.ListOrderIsNotValidated` | zhongshu-core/src/agent/execution_graph.rs:751-809 | swapping two reconciliations of a reachable graph leaves it well formed and makes it unreachable |
| `GraphRestore.ReplayTransitions` | zhongshu-core/src/agent/execution_graph.rs:712-741 | the loop over the transitions gives the replayed states, or refuses |
| `GraphRestore.CheckReconciliations` | zhongshu-core/src/agent/execution_graph.rs:751-809 | true exactly when every reconciliation has evidence and names its own way out of the unknown outcome, none twice, and every way out has one |
| `GraphRestore.CollectArtifacts` | zhongshu-core/src/agent/execution_graph.rs:810-834 | the artifacts, or what is wrong with the first one that does not pass: an unknown or unsuccessful producer, or a repeated name |
| `GraphRestore.CollectIntents` | zhongshu-core/src/agent/execution_graph.rs:836-856 | the intents, or what is wrong with the first one that does not pass |
| `GraphRestore.ValidateGraph` | zhongshu-core/src/agent/execution_graph.rs:697-834 | the checks of the graph in their order, on the graph as it is built: the graph, or the error of the first check that fails |
| `GraphRestore.ValidateSnapshot` | zhongshu-core/src/agent/execution_graph.rs:696-876 | all the checks in their order: a new task exactly when the checkpoint is accepted, and it is the one the checkpoint lists; otherwise the error of the first check that fails |
| `GraphRestore.RecoverFromCheckpoint` | zhongshu-core/src/agent/execution_graph.rs:661-694 | every checkpoint of the known version that is accepted, in whatever order its nodes were started, is taken back into service: nothing running, settled, well formed, the intents untouched; every other one is refused with the error of its version or of the first check that fails |
| `GraphRunner.Runner.Create` | zhongshu-core/src/agent/execution_graph.rs:304-318 | a task needs a name |
| `GraphRunner.Runner.RecordEffectIntents` | zhongshu-core/src/agent/execution_graph.rs:372-408 | all the intents are put on record, or none and the error of the first that does not pass |
| `EffectIntents.RecordedIff` | zhongshu-core/src/agent/execution_graph.rs:372-408 | intents are recorded if and only if their node is pending and they are new, distinct, valid and its own; then they join those on record, which stay as they are |
| `EffectIntents.ExpectationIsValidIff` | zhongshu-core/src/agent/execution_graph.rs:1010-1041 | an expectation is valid exactly when it names everything it is about, and its conversation by a positive number |
| `EffectIntents.RunKeepsIntents` | zhongshu-core/src/agent/execution_graph.rs:372-408 | in every run every intent on record is named, valid and of a node that exists |
| `EffectIntents.IntentsPrecedeStart` | zhongshu-core/src/agent/execution_graph.rs:154-162 | once a node has started no run adds to its intents, changes them or takes from them |
| `EffectIntents.TaskAcceptedIff` | zhongshu-core/src/agent/execution_graph.rs:696-876 | a checkpoint is accepted, and restores a task, if and only if it lists that task, the task is named, its graph well formed and its intents good |
| `EffectIntents.TaskRoundTrip` | zhongshu-core/src/agent/execution_graph.rs:642-876 | the checkpoint of any run's task restores it, intents included, if the run added its nodes as pending, and is refused as an invalid snapshot otherwise |
| `EffectIntents.TaskReachableIff` | zhongshu-core/src/agent/execution_graph.rs:320-687 | a task is made by some run if and only if it is named, its graph is one that runs make, and its intents are good |
| `EffectIntents.AcceptedTaskIsReachableIff` | zhongshu-core/src/agent/execution_graph.rs:696-876 | the same of an accepted checkpoint of a task: only the orders, the whole blocks and the names are not checked |

## Left out

- The Markdown tokenizer is a parameter of a message; of it only "nothing for the empty text" is assumed. Nested blocks, lists whose items hold paragraphs, raw HTML inside blocks and footnotes are not encoded as documents, though the fold handles every event.
- Unicode lower-casing in the filter is modelled by ASCII lower-casing: no control prefix holds a letter that a non-ASCII character lower-cases to, alone.
- The overlay is taken to be present in the response reducer, and the active run is a parameter of each drain.
- The admission protocol and the shared budget are values with a step function, not classes: several actors interleave on them. Locks, compare-exchange and counter updates are single steps; memory orderings weaker than that are not modelled.
- What a job does inside its polls is not modelled, only that it is in one: a job that was told to stop there still executes until the poll ends, and no longer counts as live.
- Mutual exclusion between different controllers is not modelled: the code does not establish it.
- `auto_delegation_service` is modelled with the organization gate it hands over to and an inbox that only records arrivals.
- Provider calls, timeouts, clocks, randomness, hashes and the user's approval are parameters or actions.
- Additions of `usize` coordinates, costs and counters are unbounded here; only the 64-bit budget counters wrap.
- The journal holds the tool-call rows of one run; rows of other runs and failed ledger writes are not modelled. Without a ledger nothing is recorded and nothing is ever skipped.
- Observation texts, done-callback payloads, trace events and reason strings are not modelled.
- The planner's JSON parsing and the reasons of single-agent decisions are not modelled; `extract_json_object` is left out.
- Path safety of file scopes is that of Unix paths.
- JSON surrogate pairs are not decoded: the writer never produces them.
- In the execution graph the kinds other than the apply gate are one kind; objectives, executors, requirements and transition reasons are left out. Errors carry no names or messages.
- GraphRunner.Runner.RunReady: the handler is a function of the node's name and the number of calls made so far.
- AgentMemory: the write lock of each operation is a parameter; in the completion loop it is always free. Identifiers, timestamps, memory entries and the file on disk are left out.
- Disk, battery and resource sources, window handling, rendering with floating point, configuration migration and settings are left out.
