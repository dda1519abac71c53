# kube-console, modelled in Dafny

kube-console is a Go gateway and a Vue client for Kubernetes clusters. This project models the parts of it that are
protocols, caches and parsers, and proves what they are for:

- **the exec bridge** (`ExecSession`, `StdinQueue`, `ExecSlots`): the goroutines of one exec connection as atomic steps
  over a compare-and-swap flag, a write lock and a bounded queue, and the slot pools any number of connections share;
- **the log pipeline** (`LogsStream`, `LogPanel`, `LogSearch`, `JsonGrammar`, `JsonLine`, `LogLevels`): the bounded
  buffer, the hits kept up to date while it is appended to and trimmed, the highlighting of a line, the JSON-line
  scanner, and the levels it finds;
- **the polling loop** (`PollingLoop`): timers, visibility, gates and generations;
- **the live table** (`ResourceRows`, `WatchStream`, `LiveTable`): the indexed upsert, overlapping loads, the watch
  reader, and all three together;
- **the command line** of exec (`CommandLine`), **the path policy** of the gateway (`PathPolicy`), **the metrics
  history** (`RingBuffer`, `MetricsCache`), **the narrowing of specs** (`FieldFilter`), and **ages and cell order**
  (`Ages`, `TableSort`).

`TextSplit`, `JsText` and `Wrappers` hold what several of these share.

Concurrent parts are transition systems: a state, the events that can happen in it, one function that performs an
event, and theorems over `Run` of every list of events. What the source updates in place is a class whose methods are
proved equal to functions on its value; the theorems are about those functions. The browser's own conversions (case
folding, `Number`, `localeCompare`, `JSON.parse`, `Date.parse`) are parameters, and nothing is assumed of them unless a
lemma says so.

Check everything with `dafny verify dfyconfig.toml`.

Where the code falls short of what its comments say, or of what one would expect, there is a lemma that says exactly
when, and one that shows a run or an input:

- The comment at `internal/exec/session.go:228-229` has it that whoever claimed the teardown has already told the browser
  why. `ExecSession.BrowserWasTold`: when main loses the claim, that is so if and only if the winner is an idle or
  overflow callback whose frame has been written. So it fails if the winner is `pingLoop`, which claims through `end()`
  and tells nothing, then or later (`PingLeavesMainUntold`, `PingEndsInSilence`); if it is a callback that has not
  called `writeControl` yet (`IdleLeavesMainUntold`); if its frame is still queued on the write lock or being written
  (`QueuedFrameLeavesUntold`); if its timer gave up on a frame still unwritten, as for a client that stopped reading
  (`StalledClientIsNeverTold`); and if the write failed. `LoserWasTold` is the weaker fact about frames attempted.
- A watch loop that was superseded while it waited still doubles the backoff of its successor when its wait is over
  (`web/src/composables/useWatch.ts:113-114`). `WatchStream.BackoffIsItsOwnExactly`: the backoff is that of the watch's
  own failures if and only if no superseded loop ended a wait since the watch was started or last delivered, or the
  watch has reached the cap by itself. `SupersededWaitStillCounts` is a run in which it is not.
- A load begun without a resource overtakes one in flight but does not touch `loading`, and the overtaken one may not
  (`web/src/composables/useResourceList.ts:174-210`). `ResourceRows.LoadingIsTruthful`: after a load of a resource the
  spinner is right. `LoadingExactly`: after one without, and until the next one of a resource, it is right if and only
  if it was off when that load was begun. `LoadingCanStick` is a run in which it stays on with nothing in flight.
- Merging the field sets of two managers should own what either owns. `FieldFilter.MergeLawExactly`: for every value and
  any two sets that holds if and only if `MergesRight`. A field that a set names must be a record in one of them:
  `web/src/utils/fieldFilter.ts:188` ignores a node that is no record, and line 202 makes it an owner
  (`NonRecordOwnsTooMuch`). A list entry that is a record in one set only must own all of its element. And where the two
  sets know a list element by different keys first, the entry that decides in the merged set must own what both own of
  it; else something is lost (`AmbiguityLosesFields`) or gained.
- The watch is always closed on unmount (`web/src/composables/useWatch.ts:2-3`), and stopped first when the cluster
  changes, lest it bring in rows of the old one (`web/src/composables/useResourceList.ts:325-329`).
  `LiveTable.LeavingStopsExactly`: it stays stopped, and nothing is delivered any more, if and only if no refresh is in
  flight that will start it behind its load. `LeavingCanFail` is a run in which one does.
- `PathPolicy.EncodedSeparatorsAreCaught`: the search for `%2f` and `%5c` up front never decides what is accepted.

## Model

| member | source | states |
|---|---|---|
| ExecSession.StepKeepsInv | internal/exec/session.go:151-297 | every step of every goroutine, timer and lock holder keeps the invariant: the flag is set exactly when someone owns the teardown, the lock is held by one frame, and the number of terminal frames attempted follows from the owner alone |
| ExecSession.AtMostOneTerminalFrame | internal/exec/session.go:188-247 | over every interleaving of re-fired idle deadlines, overflow, ping failure, client departure and stream end, at most one exit or error frame is ever attempted, and an exit frame only by the stream-end path that won the claim |
| ExecSession.ReportSaysTheOutcome | internal/exec/session.go:235-247 | over every run, main's frame is a plain exit if and only if the stream returned without an error, an exit with a code exactly if it returned that code, and an error exactly if it failed otherwise |
| ExecSession.ReportSaysTheReason | internal/exec/session.go:163-194 | a callback's frame names the idle timeout if and only if it is an idle callback, and the overflow exactly if it is the overflow's |
| ExecSession.WireIsTruthful | internal/exec/session.go:151-297 | whatever exit or error frame reached the socket says how the stream really returned, or why the claimant really closed the session, or that the handshake was refused |
| ExecSession.ExitCodeArrives | internal/exec/session.go:218-247 | there is a run in which the exit code reaches the browser |
| ExecSession.ClaimIsForever | internal/exec/session.go:151-157 | the flag is never reset, though `end()` stores it without a compare-and-swap, and since every other taker tests it the first owner, which the model remembers, stays the owner |
| ExecSession.OneWinner | internal/exec/session.go:188-247 | of the stream-end path and all callbacks ever started at most one ever wins the compare-and-swap, however far it has gone since, and any terminal frame is the winner's |
| ExecSession.BrowserWasTold | internal/exec/session.go:218-297 | when main finds the teardown claimed, a frame saying why has reached the socket if and only if the claimant is a callback whose frame is written; never more than one has |
| ExecSession.LoserWasTold | internal/exec/session.go:218-233 | and one has been attempted if and only if the claimant is a callback past its call of writeControl; otherwise it is pingLoop, or a callback between its compare-and-swap and that call |
| ExecSession.PingEndsInSilence | internal/exec/session.go:380-404 | a teardown that pingLoop began is never explained to the browser, in any continuation |
| ExecSession.PingLeavesMainUntold | internal/exec/session.go:228-233 | there is a run in which main loses to pingLoop and nothing was said |
| ExecSession.IdleLeavesMainUntold | internal/exec/session.go:228-233 | and one in which it loses to an idle deadline that has not said anything yet |
| ExecSession.QueuedFrameLeavesUntold | internal/exec/session.go:228-233 | and one in which the frame is queued behind a stdout write |
| ExecSession.StalledClientIsNeverTold | internal/exec/session.go:266-297 | and one in which the timer gave up on the frame and the session was cancelled without it |
| ExecSession.OneWriterHolds | internal/exec/streams.go:71-79 | the write lock admits one control frame at a time, and none beside a stdout write |
| ExecSession.ExplanationComesFirst | internal/exec/session.go:284-297 | `end()` is not reached before the explanation was written or failed, unless its timer expired |
| ExecSession.ClaimantIsNeverBlocked | internal/exec/session.go:284-297 | an idle or overflow claimant can always go on once its frame timer has expired, whoever holds the write lock |
| ExecSession.ClaimReachesEnd | internal/exec/session.go:258-297 | whatever all others do in between, the claimant's own four steps end the session: cancelled, quiet and claimed |
| ExecSession.SessionCanEnd | internal/exec/session.go:151-247 | from every reachable state it is enough that the stream returns and the writes under way finish for main to come to its end, with the session cancelled |
| ExecSession.TaskCanEnd | internal/exec/session.go:258-297 | every callback comes to its end by its own steps, and its timer at the latest |
| ExecSession.PingFailureEnds | internal/exec/session.go:380-404 | a failed ping ends the session, unless the browser is known to be gone: then it changes nothing |
| ExecSession.IdleTimerExactly | internal/exec/session.go:163-200 | traffic in either direction arms the idle timer again, firing and the session's end disarm it, and nothing else touches it |
| ExecSession.CallbacksStartExactly | internal/exec/streams.go:165-199 | each firing starts an idle callback and each refused frame the overflow's, which the reader waits for before it reports the browser gone |
| StdinQueue.StdinQueue.Push | internal/exec/streams.go:116-126 | a frame is staged exactly when its payload and overhead fit under the cap, and nothing changes otherwise |
| StdinQueue.StdinQueue.Close | internal/exec/streams.go:129-134 | closing keeps what is staged |
| StdinQueue.StdinQueue.Next | internal/exec/streams.go:137-151 | the oldest frame is handed out and uncharged; the end is reported only when closed and drained |
| StdinQueue.StepKeepsInv | internal/exec/streams.go:165-217 | every step of readLoop, stdinPump and the pipe conserves the bytes accepted: in the pipe, in the pump's hand, or staged |
| StdinQueue.PipeIsPrefixOfInput | internal/exec/streams.go:165-217 | over every interleaving the bytes in the stdin pipe are a gap-free prefix of the bytes the browser sent |
| StdinQueue.AcceptedIsPrefix | internal/exec/streams.go:183-189 | a refused frame ends the input: all before it and none after are accepted |
| StdinQueue.DrainedDeliversAll | internal/exec/streams.go:202-217 | a pump that ends without a failed write has delivered all that was accepted, which is all that was sent unless a frame was refused |
| StdinQueue.StagedWithinLimit | internal/exec/streams.go:99-126 | the bytes staged, overhead included, never exceed the cap |
| StdinQueue.AcceptsExactly | internal/exec/streams.go:116-126 | a frame read is taken if and only if it fits beside what is staged; a refused one changes nothing and is the last |
| StdinQueue.InputCanEnd | internal/exec/streams.go:165-217 | from every reachable state without a failed write, the browser's leaving and the executor's reading are enough for every byte accepted to arrive and for the process to see the end |
| ExecSlots.IpGate.Acquire | internal/exec/limits.go:26-37 | admits below the limit and counts, or leaves the counts alone; a gate without a limit admits all |
| ExecSlots.IpGate.Release | internal/exec/limits.go:41-52 | counts down and drops the key at zero |
| ExecSlots.ReleaseUndoesAcquire | internal/exec/limits.go:25-52 | releasing after acquiring restores the very map, with no zero entry left |
| ExecSlots.SlotsConserved | internal/exec/handler.go:105-124 | over every run of concurrent connections the pending pool, the session pool and each IP's count equal the connections holding them, within their bounds, even while a promotion holds both slots and a release is half done |
| ExecSlots.AdmitsExactly | internal/exec/handler.go:94-124 | in every reachable state a connection passes the gate, gets a pending slot and is promoted if and only if fewer connections than the limit hold that slot; turned away it ends, and no other connection is touched |
| ExecSlots.ReleaseNeverBlocks | internal/exec/handler.go:120-124 | a goroutine about to return its token always finds one |
| ExecSlots.NothingLeaks | internal/exec/session.go:87-95 | when every connection has ended all pools are empty |
| JsonGrammar.ValueSound | web/src/utils/logJson.ts:112-146 | what the parser accepts as a value is the text of a well-formed tree |
| JsonGrammar.ObjectSound | web/src/utils/logJson.ts:148-165 | the same of an object |
| JsonGrammar.ValueComplete | web/src/utils/logJson.ts:112-146 | the text of every well-formed tree, whatever follows it that cannot continue a number, parses to that tree |
| JsonGrammar.ObjectComplete | web/src/utils/logJson.ts:148-165 | the same of an object, with any text behind it |
| JsonGrammar.NumberSound | web/src/utils/logJson.ts:31-32 | the number pattern matches nothing but RFC 8259 numbers |
| JsonGrammar.NumberComplete | web/src/utils/logJson.ts:136-138 | and matches every such number in full |
| JsonGrammar.NumberIsLongest | web/src/utils/logJson.ts:31-32 | what it matches is a number, and no longer stretch from the same place is one |
| JsonGrammar.TokensSpellText | web/src/utils/logJson.ts:7-12 | the tokens of a tree concatenate to its text |
| JsonGrammar.TokensFit | web/src/utils/logJson.ts:112-206 | every token holds what its kind says, and a token is a level token exactly if it carries a severity |
| JsonLine.Tokenize | web/src/utils/logJson.ts:67-184 | the scanner, run on its cursor and token list, returns what the grammar's parser says, for every line |
| JsonLine.Scanner.Object | web/src/utils/logJson.ts:148-165 | leaves the cursor behind the object and appends exactly its tokens, or fails where the parser fails |
| JsonLine.Scanner.Array | web/src/utils/logJson.ts:167-177 | the same of an array |
| JsonLine.Scanner.Value | web/src/utils/logJson.ts:112-146 | the same of a value with the whitespace before it |
| JsonLine.Scanner.StringLiteral | web/src/utils/logJson.ts:94-110 | takes a literal to its first unescaped quote, or leaves the cursor alone |
| JsonLine.Scanner.ClosingQuote | web/src/utils/logJson.ts:96-106 | finds the first quote that no backslash skips |
| JsonLine.Scanner.Whitespace | web/src/utils/logJson.ts:77-84 | skips spaces, tabs and carriage returns as one token |
| JsonLine.Scanner.NumberLiteral | web/src/utils/logJson.ts:136-145 | takes what the number pattern matches at the cursor, which `JsonGrammar.NumberIsLongest` says is the longest number there, as one token, and fails exactly where it matches nothing |
| JsonLine.TokenizeComplete | web/src/utils/logJson.ts:67-184 | every derivation of a line from the grammar is found, with its own tokens |
| JsonLine.StampsExactly | web/src/utils/logJson.ts:25-28 | a stamp is four digits, two and two with hyphens between, a T, any run of non-space, and whitespace |
| JsonLine.TokenizesExactlyTheGrammar | web/src/utils/logJson.ts:7-12 | a line has tokens if and only if it is an optional timestamp, an object of the grammar and whitespace, and then they spell the line |
| LogLevels.LineIsRight | web/src/utils/logJson.ts:34-63 | of a line's tokens, a string before a colon is a key; a string behind one of the five level keys is an error, warn, info or debug level exactly if, lower-cased, it begins with one of that severity's words, and a number exactly by its range; everything else is plain |
| LogLevels.ValueRight | web/src/utils/logJson.ts:112-177 | the same of the tokens of any value, wherever it stands |
| PollingLoop.StepKeepsInv | web/src/composables/usePollingLoop.ts:58-156 | every handler keeps the invariant tying timer, generation and polls in flight together |
| PollingLoop.ExactlyOneChain | web/src/composables/usePollingLoop.ts:95-131 | a live loop always has exactly one thing carrying it on, the timer it knows or one poll of its generation; a stopped one has none; the in-flight counts are exact |
| PollingLoop.PollsAreSpaced | web/src/composables/usePollingLoop.ts:108-130 | within a generation any two polls start at least the interval apart, catch-ups included |
| PollingLoop.PollsExactly | web/src/composables/usePollingLoop.ts:95-148 | in every reachable state a poll starts, and only then: when a timer fires in a visible tab; when a live loop's tab becomes visible the interval after the last start with no poll of its generation in flight; at an ungated start(); and when the newest generation's gate lets it through |
| PollingLoop.ArmsExactly | web/src/composables/usePollingLoop.ts:95-156 | a timer that fires in a hidden tab, and a settled poll of the live generation, arm the one timer there is for exactly the interval from then; a poll, start() and stop() leave none |
| PollingLoop.LiveExactly | web/src/composables/usePollingLoop.ts:133-156 | an ungated start() and a gate that proceeds make the loop live, and only stop() and a gated start() end it |
| PollingLoop.ListensWhileLive | web/src/composables/usePollingLoop.ts:144-154 | the tab's visibility is listened to exactly while the loop is live |
| PollingLoop.GatesExactly | web/src/composables/usePollingLoop.ts:133-148 | a gate is open from its gated start() until it resolves |
| PollingLoop.PollsOnAndOn | web/src/composables/usePollingLoop.ts:95-148 | there is a run in which the second poll follows the first by the interval |
| PollingLoop.StopIsSilent | web/src/composables/usePollingLoop.ts:150-156 | after stop() no poll starts, no timer is armed and no generation is current until the next start(), even if a gate resolves |
| PollingLoop.OldGenerationsStayDead | web/src/composables/usePollingLoop.ts:58-60 | a superseded generation is never current again |
| PollingLoop.Loop.OnTimer | web/src/composables/usePollingLoop.ts:97-105 | the timer callback, in place, is the step of the model |
| PollingLoop.Loop.OnVisibilityChange | web/src/composables/usePollingLoop.ts:108-131 | the same of the visibility listener |
| PollingLoop.Loop.OnPollSettled | web/src/composables/usePollingLoop.ts:85-104 | the same of a settled poll and the re-arming behind it |
| PollingLoop.Loop.Start | web/src/composables/usePollingLoop.ts:133-148 | the same of start() up to its gate or first poll |
| PollingLoop.Loop.OnGateResolved | web/src/composables/usePollingLoop.ts:136-148 | the same of a resolved gate |
| PollingLoop.Loop.Stop | web/src/composables/usePollingLoop.ts:150-156 | the same of stop() |
| LogSearch.CompileQuery | web/src/utils/logSearch.ts:31-36 | a query is the text as typed, and there is none exactly for whitespace |
| LogSearch.Exec | web/src/utils/logSearch.ts:53-54 | the first match at or after a position |
| LogSearch.MatchesExactly | web/src/utils/logSearch.ts:31-61 | a line matches if and only if some stretch of it is the query, letter case aside, whatever stands around |
| LogSearch.MatchRanges | web/src/utils/logSearch.ts:44-61 | the ranges are the leftmost greedy set, and not empty exactly when the line matches |
| LogSearch.GreedyIsUnique | web/src/utils/logSearch.ts:44-61 | there is only one set of matches that is ordered, does not overlap and leaves no match starting outside it |
| LogSearch.ScanLines | web/src/utils/logSearch.ts:63-70 | collects the matching lines from an index on |
| LogSearch.ScanExact | web/src/utils/logSearch.ts:63-70 | a line is among them if and only if it is in reach and matches |
| LogSearch.ScanAscends | web/src/utils/logSearch.ts:63-70 | and they ascend strictly |
| LogSearch.SegmentLine | web/src/utils/logSearch.ts:86-123 | the segments put each character of the line on screen once, in order, in its own token's colour, hit exactly where a range covers it; their text is the line |
| LogSearch.HitsAreExact | web/src/utils/logSearch.ts:78-85 | whatever segments show that, spell the line and mark an offset exactly when it lies in a range |
| LogSearch.PiecesExactly | web/src/utils/logSearch.ts:86-100 | a line is cut by its tokens in their order and colours, and is one colourless piece without any |
| LogSearch.LevelsStandOut | web/src/utils/logJson.ts:189-212 | a level is set apart by weight from everything else, and each severity by its colour |
| LogSearch.KindsDiffer | web/src/utils/logJson.ts:199-212 | keys, strings, numbers, words and punctuation each have a colour of their own |
| LogSearch.CutPiece | web/src/utils/logSearch.ts:100-121 | one token is cut at every boundary of a range, with ranges reaching over tokens carried along |
| TextSplit.PartsAreTheLines | web/src/composables/useLogsStream.ts:193-194 | splitting leaves no separator in a part, and joining restores the text |
| TextSplit.MoreText | web/src/composables/useLogsStream.ts:192-195 | text that comes later changes only the unfinished line |
| TextSplit.ChunksDoNotMatter | web/src/composables/useLogsStream.ts:185-198 | the lines completed, and the rest carried over, depend on the text alone and not on its chunks |
| LogsStream.StepKeepsInv | web/src/composables/useLogsStream.ts:112-291 | every step of every start() call, timer and stop() keeps buffers, timer, ownership and text in step |
| LogsStream.BufferIsTheTail | web/src/composables/useLogsStream.ts:112-144 | whenever nothing waits to be merged the buffer is exactly the last MAX_LINES of all lines staged since start(), though staging was trimmed too, and `truncated` says whether that is not all of them |
| LogsStream.BufferShowsTheText | web/src/composables/useLogsStream.ts:170-273 | those lines are the lines of the text delivered by all connections of the stream, reconnects included, however it was cut; a stream that ended by itself shows its last line |
| LogsStream.SupersededNeverWrites | web/src/composables/useLogsStream.ts:91-96 | once superseded, a start() call never changes anything the user sees |
| LogsStream.StagedLinesWillFlush | web/src/composables/useLogsStream.ts:146-159 | staged lines always have a flush on its way that will show them |
| LogsStream.FlushShifts | web/src/composables/useLogsStream.ts:134-144 | to someone holding line numbers a flush drops as many lines as `dropped` grew, and appends the staged ones |
| LogsStream.StatusExactly | web/src/composables/useLogsStream.ts:161-291 | running, error and reconnecting after every step: which starts, answers, failures, ends and stops set and clear them, and that superseded calls do not |
| LogsStream.VersionTells | web/src/composables/useLogsStream.ts:128-168 | the version stays only if the visible lines and their numbers do, and a restart is a change |
| LogsStream.Stream.Flush | web/src/composables/useLogsStream.ts:128-144 | merges into the same buffer object, line by line, and trims it |
| LogsStream.Stream.Append | web/src/composables/useLogsStream.ts:146-159 | stages the lines, trims staging, arms one timer |
| LogsStream.Stream.Trim | web/src/composables/useLogsStream.ts:122-126 | keeps the tail in place and says if it had to |
| LogsStream.Stream.OnTimer | web/src/composables/useLogsStream.ts:155-158 | flushes only for the stream it was armed for |
| LogsStream.Stream.Received | web/src/composables/useLogsStream.ts:189-195 | a chunk of a superseded stream changes nothing; of the current one, its complete lines are staged and the rest is carried |
| LogsStream.Stream.Start | web/src/composables/useLogsStream.ts:226-234 | a new buffer object, emptied counters, a new generation |
| LogsStream.Stream.Stop | web/src/composables/useLogsStream.ts:275-291 | disowns what is staged and the timer |
| LogsStream.Stream.Finish | web/src/composables/useLogsStream.ts:264-272 | the owner's last act flushes; a superseded one does nothing |
| LogPanel.IncrementalScan | web/src/composables/useLogSearch.ts:87-96 | the hits of a buffer that lost a head and gained a tail are the surviving hits moved down and the hits among the new lines |
| LogPanel.VerdictExactly | web/src/utils/logSearch.ts:63-70 | the hits to show are the indices of all matching lines of the buffer, and none without a query |
| LogPanel.Panel.Shift | web/src/composables/useLogSearch.ts:86-101 | the incremental branch leaves exactly the hits of a full scan, and keeps the selected hit on its absolute line until that line is trimmed, and no longer |
| LogPanel.Panel.Watch | web/src/composables/useLogSearch.ts:75-108 | after every run of the watch the hits are those of the whole buffer for the current query |
| LogPanel.Panel.OnFlush | web/src/composables/useLogSearch.ts:69-108 | so after every flush of the stream, with the selection kept exactly while its line is |
| LogPanel.Panel.OnRestart | web/src/composables/useLogSearch.ts:83-85 | and after every restart, with nothing selected |
| LogPanel.Panel.Apply | web/src/composables/useLogSearch.ts:42-85 | and after every change of the query; an equivalent one keeps the selection |
| LogPanel.Panel.OnDebounce | web/src/composables/useLogSearch.ts:22-28 | the debounce applies the query as typed |
| LogPanel.Panel.Settle | web/src/composables/useLogSearch.ts:32-37 | a pending debounce is applied at once |
| LogPanel.Panel.Move | web/src/composables/useLogSearch.ts:110-118 | next and prev step on the hits of the query as typed, from the selection if that query did not change |
| LogPanel.Panel.Clear | web/src/composables/useLogSearch.ts:130-133 | empties the query and lets go of the selection, with the hits still those of the query in force |
| LogPanel.MovesUndoEachOther | web/src/composables/useLogSearch.ts:110-126 | next and prev undo each other whatever is selected |
| LogPanel.MovesIn | web/src/composables/useLogSearch.ts:110-118 | with nothing selected next() selects the first hit and prev() the last |
| LogPanel.NextVisitsAll | web/src/composables/useLogSearch.ts:110-126 | stepping on visits every hit in order before the first comes round |
| ResourceRows.Table.SetRows | web/src/composables/useResourceList.ts:80-84 | the index sends every key to its last row |
| ResourceRows.KeysTellObjectsApart | web/src/composables/useResourceList.ts:62-67 | without a uid, keys are equal exactly for the same name in the same namespace, or in none as cluster-scoped objects are |
| ResourceRows.KeysAreUids | web/src/composables/useResourceList.ts:62-67 | with a uid, keys are equal exactly for the same uid, whatever the names, namespaces and cells |
| ResourceRows.Table.UpsertRows | web/src/composables/useResourceList.ts:86-120 | the indexed update is the naive one, and the index stays right |
| ResourceRows.Table.HandleEvent | web/src/composables/useResourceList.ts:122-138 | an event moves the resourceVersion it names and, unless a bookmark, upserts or removes its rows |
| ResourceRows.EventByUid | web/src/composables/useResourceList.ts:86-138 | of the rows of one object an event changes nothing if none of its rows is the object's or it is a bookmark; a deletion takes them all away; any other puts the event's newest row of it in the place of the last, or adds it |
| ResourceRows.EventMovesVersion | web/src/composables/useResourceList.ts:122-137 | an event moves the resourceVersion to the one it names, if it names one, and a bookmark nothing else |
| ResourceRows.Table.BeginLoad | web/src/composables/useResourceList.ts:173-188 | a new generation, and an empty table if there is a resource |
| ResourceRows.Table.LoadSettled | web/src/composables/useResourceList.ts:198-211 | a superseded load writes nothing; the newest replaces everything |
| ResourceRows.LoadsExactly | web/src/composables/useResourceList.ts:173-211 | a load empties the table, clears the error and turns the spinner on; settling brings the walk's rows, version and token, or an empty table and an error, and turns it off |
| ResourceRows.ChangeDecides | web/src/composables/useResourceList.ts:86-120 | what a key shows after a change is what the change says of it, or what it showed before |
| ResourceRows.LastEventWins | web/src/composables/useResourceList.ts:86-138 | after any sequence of events every key shows what the last event about it said |
| ResourceRows.ReplayKeepsUnique | web/src/composables/useResourceList.ts:69-120 | unique keys stay unique over any sequence of events |
| ResourceRows.UpsertKeepsPlaces | web/src/composables/useResourceList.ts:97-100 | an upsert moves no row, and puts new keys at the end |
| ResourceRows.SurvivorsKeepOrder | web/src/composables/useResourceList.ts:88-95 | rows that stay keep their order |
| ResourceRows.SupersededLoadNeverWrites | web/src/composables/useResourceList.ts:44-47 | over every run a load that was superseded writes nothing, however late it settles |
| ResourceRows.LoadingIsTruthful | web/src/composables/useResourceList.ts:182-211 | after a load of some resource the spinner shows exactly while that load is in flight |
| ResourceRows.LoadingExactly | web/src/composables/useResourceList.ts:173-211 | after a load without one, and until one of a resource is begun, it does if and only if it was off when that load was begun |
| ResourceRows.LoadingCanStick | web/src/composables/useResourceList.ts:174-176 | there is a run in which it stays on with nothing in flight |
| WatchStream.ReadChunk | web/src/composables/useWatch.ts:60-85 | one chunk delivers to the table the events of the lines it completes, in order, up to the first failure, and keeps the unfinished line |
| WatchStream.ChunkingDoesNotMatter | web/src/composables/useWatch.ts:48-92 | the same text in other chunks delivers the same events and fails at the same line |
| WatchStream.DeliversExactly | web/src/composables/useWatch.ts:60-84 | of the lines of a text, those before the first failing one deliver their events, empty lines and lines that are no JSON aside, and that one is the failure |
| WatchStream.AnswersExactly | web/src/composables/useWatch.ts:29-50 | an answer to the current loop: a body is read, 410 asks for a relist and stops, 401 ends it, and anything else is retried after a wait |
| WatchStream.ReadsExactly | web/src/composables/useWatch.ts:51-92 | a chunk delivers the events before the first failure; an ERROR event of code 410 asks for a relist, any other failure, the end of the stream and a broken read are retried |
| WatchStream.SupersededJustEnds | web/src/composables/useWatch.ts:95-116 | a loop that is not current any more ends, whatever its attempt or wait comes to, and changes nothing else |
| WatchStream.TriesAgain | web/src/composables/useWatch.ts:95-122 | a wait that is over, and start(), begin an attempt if there is a URL, start() with the backoff reset |
| WatchStream.StepKeepsInv | web/src/composables/useWatch.ts:29-132 | every step of every loop, start and stop keeps the invariant: an open attempt that is not aborted belongs to the newest loop |
| WatchStream.StoppedIsSilent | web/src/composables/useWatch.ts:55-59 | between stop() and the next start() nothing is delivered and onStale is not called, whatever chunks still come in |
| WatchStream.OnlyTheCurrentDelivers | web/src/composables/useWatch.ts:95-132 | whatever is delivered comes from the loop started last, while it is not stopped |
| WatchStream.OneAttemptAtATime | web/src/composables/useWatch.ts:97-106 | no two attempts are ever open at once |
| WatchStream.AttemptsAreClosed | web/src/composables/useWatch.ts:97-106 | every attempt that is over has been aborted, so that no fetch is left open |
| WatchStream.BackoffStaysInRange | web/src/composables/useWatch.ts:20-114 | the wait stays between one second and thirty, and an event brings it back to one |
| WatchStream.SentIsWhatTheTextSays | web/src/composables/useWatch.ts:48-85 | an open attempt has delivered exactly the events of the complete lines it has read |
| WatchStream.BackoffIsItsOwnExactly | web/src/composables/useWatch.ts:78-122 | over every run the backoff is the doubling of the current watch's own waits if and only if no superseded loop ended a wait since the start or the last event, or those own waits have reached the cap |
| WatchStream.SupersededWaitStillCounts | web/src/composables/useWatch.ts:113-114 | there is a run in which a superseded loop doubles the backoff of its successor |
| LiveTable.StepKeepsInv | web/src/composables/useResourceList.ts:159-232 | every refresh, page, settled load, step of the watch and relist keeps the table equal to the last walk with the events since replayed, and the watch stopped while the newest load is in flight |
| LiveTable.TableIsWalkPlusEvents | web/src/composables/useResourceList.ts:173-232 | so in every reachable state, loads and watches interleaved in any way |
| LiveTable.TableFollowsTheWatch | web/src/composables/useResourceList.ts:198-232 | from the moment a load brings its walk until another is begun, the table is that walk with everything the watch has delivered since, whatever superseded loads and loops do meanwhile |
| LiveTable.NoEventDuringLoad | web/src/composables/useResourceList.ts:216-232 | while the newest load is in flight no step of any watch loop delivers an event or touches the table, and the table of a resource being loaded is empty |
| LiveTable.EventsFollowTheLoad | web/src/composables/useResourceList.ts:216-232 | an event that lands comes from the loop started last, and no load newer than the rows is in flight |
| LiveTable.RelistsExactly | web/src/composables/useResourceList.ts:160-163 | the watch loads the collection afresh, stopped and with the table emptied, exactly when its resourceVersion is gone |
| LiveTable.BeginsExactly | web/src/composables/useResourceList.ts:173-244 | a refresh and a page stop the watch, overtake the load in flight, and with a resource begin a load with the table emptied |
| LiveTable.WatchStartsExactly | web/src/composables/useResourceList.ts:216-232 | a settled load starts the watch if and only if it is the newest, a refresh awaits it, and the collection was loaded with a version and without a continue token |
| LiveTable.LeavingStopsExactly | web/src/composables/useResourceList.ts:211-232 | after stop() no continuation without a new refresh starts the watch or delivers an event if and only if, at the stop, no refresh is in flight that will start it: one of a resource, or one without a resource over a complete table |
| LiveTable.LeavingCanFail | web/src/composables/useResourceList.ts:211-232 | there is a run in which the watch is running after stop(), because a refresh was in flight |
| CommandLine.ParseCommandLine | web/src/utils/podHelpers.ts:66-104 | the loop over quote, current argument and index reads what the state machine reads |
| CommandLine.PrintThenParse | web/src/utils/podHelpers.ts:117-120 | every argv, of any strings, reads back from its printed line |
| CommandLine.ReadsWhatIsMeant | web/src/utils/podHelpers.ts:53-104 | a line put together in any way from gaps, characters, escapes and quoted stretches, broken off or not, is read as what those mean, side by side in one argument |
| CommandLine.EveryLineIsSpelled | web/src/utils/podHelpers.ts:53-104 | and every line is put together so |
| CommandLine.ShownExactly | web/src/utils/podHelpers.ts:106-115 | an argument is shown as it is exactly if it holds nothing but letters, digits and ten other characters, else in single quotes, or double ones if it holds a single one |
| CommandLine.FormattingIsCanonical | web/src/utils/podHelpers.ts:53-58 | printing what was parsed keeps the meaning and is its own canonical form |
| CommandLine.PrintingIsInjective | web/src/utils/podHelpers.ts:106-120 | two argvs are never shown alike |
| PathPolicy.AllowedExactly | internal/gateway/policy.go:39-77 | a path is allowed if and only if it begins with a slash, its first segment is an allowed root, and every segment decodes to one that is not empty, a dot segment or blocked and holds no slash, backslash or percent sign |
| PathPolicy.ForbiddenExactly | internal/gateway/policy.go:39-77 | a path is forbidden, not malformed, if and only if it begins with a slash, holds no encoded separator, and either the first segment that does not decode to a clean one decodes to a blocked word, in whatever case and with nothing structural in it, or all are clean and the root is not allowed |
| PathPolicy.EncodedSeparatorsAreCaught | internal/gateway/policy.go:43-48 | whatever passes the segment checks holds no encoded slash or backslash |
| PathPolicy.EscapesDecode | internal/gateway/policy.go:53-57 | any bytes, each escaped with its high hex digit first, decode to themselves |
| PathPolicy.ContainsExactly | internal/gateway/policy.go:43-48 | a text contains another if and only if it is that one with something before and after |
| PathPolicy.LowersLetters | internal/gateway/policy.go:43 | lower-casing takes each capital to its small letter and leaves everything else |
| PathPolicy.HexExactly | internal/gateway/policy.go:53 | the hex digits of either case, and their values |
| PathPolicy.DecodingCommutes | internal/gateway/policy.go:49-57 | decoding a path and splitting it is splitting it and decoding |
| PathPolicy.AllowedIsUnambiguous | internal/gateway/policy.go:36-77 | an allowed path decodes, as a whole as by segments, to clean segments under an allowed root, and a second decoding changes nothing |
| PathPolicy.DecodedIsAllowed | internal/gateway/policy.go:36-77 | and its decoded form is allowed again |
| RingBuffer.Buffer.Push | web/src/utils/ringBuffer.ts:19-37 | a sample is taken exactly when newer than all before, and then the buffer is the window of the last 240 taken, every column aligned and gaps filled in; a rejected one changes nothing |
| RingBuffer.Buffer.Backfill | web/src/utils/ringBuffer.ts:23-28 | a new label starts with a gap for each sample there is |
| RingBuffer.Buffer.ToUplotData | web/src/utils/ringBuffer.ts:57-70 | draws exactly the samples at or after the cutoff, and all of them without a range or with a negative one |
| RingBuffer.FoundWindow | web/src/utils/ringBuffer.ts:60-62 | the first index at or after the cutoff begins those samples; a negative range finds none |
| RingBuffer.NextWindow | web/src/utils/ringBuffer.ts:32-35 | appending and dropping the oldest if there is one too many gives the next window |
| RingBuffer.SeenLabels | web/src/utils/ringBuffer.ts:23-31 | a label not listed was in none of the samples ever taken |
| MetricsCache.Cache.Bind | web/src/utils/metricsCache.ts:39-53 | the cached buffer itself unless it is missing or stale, else a fresh one in its place |
| MetricsCache.Cache.Victim | web/src/utils/metricsCache.ts:68-82 | an unprotected entry written to no later than any other, and none only if all are protected |
| MetricsCache.Cache.Evict | web/src/utils/metricsCache.ts:62-85 | nothing past the TTL stays, the cache fits unless all left are protected, and each victim was unprotected and no newer than an unprotected survivor |
| MetricsCache.Cache.GetMetricsBuffers | web/src/utils/metricsCache.ts:24-31 | what is returned is what the cache holds from then on, reused exactly when present and fresh; the size is bounded by 64 or the keys asked for; two scopes never share a buffer |
| MetricsCache.Cache.ClearContext | web/src/utils/metricsCache.ts:96-101 | exactly the entries with the context's prefix go |
| MetricsCache.FairStep | web/src/utils/metricsCache.ts:55-84 | evicting one victim after another stays fair to every survivor |
| FieldFilter.PruneEmpty | web/src/utils/fieldFilter.ts:44-57 | the loops compute the recursive pruning |
| FieldFilter.PruningTwice | web/src/utils/fieldFilter.ts:43-57 | pruning a pruned value changes nothing |
| FieldFilter.PrunedAwayExactly | web/src/utils/fieldFilter.ts:36-57 | nothing is left of a value exactly if no number, boolean or nonempty text is anywhere in it |
| FieldFilter.PruningRestricts | web/src/utils/fieldFilter.ts:43-57 | pruning keeps exactly the paths along which there is one |
| FieldFilter.PrunedEmbeds | web/src/utils/fieldFilter.ts:43-57 | pruning only leaves parts out |
| FieldFilter.EmbeddingChains | web/src/utils/fieldFilter.ts:254-266 | a part of a part is a part |
| FieldFilter.IntersectWithTemplate | web/src/utils/fieldFilter.ts:101-128 | the loops compute the recursive intersection, list elements paired by merge key or place |
| FieldFilter.PairingIsExact | web/src/utils/fieldFilter.ts:77-98 | a live element is paired with the first manifest element that shares the earliest merge key any of them shares |
| FieldFilter.TemplateExactly | web/src/utils/fieldFilter.ts:77-117 | it is the one shared by the earliest of the nine merge keys, and if there is none the one in the same place, if the lists are as long and that is a record |
| FieldFilter.IntersectingRestricts | web/src/utils/fieldFilter.ts:100-128 | what is left is the value restricted to the paths the manifest declares |
| FieldFilter.IntersectedEmbeds | web/src/utils/fieldFilter.ts:100-128 | narrowing by a manifest only leaves parts out |
| FieldFilter.FilterValue | web/src/utils/fieldFilter.ts:174-193 | the loops compute the recursive filter |
| FieldFilter.MatchesExactly | web/src/utils/fieldFilter.ts:147-172 | what a set owns of a list element is what the first entry naming it holds, a `k:` entry naming a record by fields it has and a `v:` entry anything else by its value, or all of it if that is no record |
| FieldFilter.FilteredEmbeds | web/src/utils/fieldFilter.ts:174-193 | filtering by ownership only leaves parts out |
| FieldFilter.FilteringRestricts | web/src/utils/fieldFilter.ts:137-193 | what is left is the value restricted to the paths the set owns |
| FieldFilter.MergeFieldSets | web/src/utils/fieldFilter.ts:195-205 | the loop computes the recursive merge |
| FieldFilter.FirstOfMerged | web/src/utils/fieldFilter.ts:153-205 | a list element is matched in the merged set by the first set's first key for it, joined with what the second has under that key, else by the second set's first key |
| FieldFilter.MergeKeeps | web/src/utils/fieldFilter.ts:195-205 | where the two sets merge right, the merged set keeps a path if and only if one of the two does |
| FieldFilter.MergeLawExactly | web/src/utils/fieldFilter.ts:153-205 | for every value and any two sets, that law holds of all paths if and only if they merge right |
| FieldFilter.WithinExactly | web/src/utils/fieldFilter.ts:153-193 | the comparison of sets used there, which goes through value and sets only, says exactly that one set keeps no path that the other ones do not |
| FieldFilter.NonRecordOwnsTooMuch | web/src/utils/fieldFilter.ts:184-203 | there is an input on which the merged set owns a field that neither set owns |
| FieldFilter.MergeLaw | web/src/utils/fieldFilter.ts:174-205 | so filtering by it leaves exactly what either would have left |
| FieldFilter.AmbiguityLosesFields | web/src/utils/fieldFilter.ts:153-172 | where the two sets know an element by different keys, for any two such keys, what one of them owns of it is lost |
| FieldFilter.ExtractOwnedSpec | web/src/utils/fieldFilter.ts:219-233 | merges the spec sets of the server-side applies of the object itself |
| FieldFilter.ExtractedKeeps | web/src/utils/fieldFilter.ts:214-233 | if each set can be merged into those before it, the merged set keeps exactly the paths owned under `f:spec` by some entry whose operation is Apply and whose subresource is missing or empty |
| FieldFilter.ExtractedLeaves | web/src/utils/fieldFilter.ts:214-233 | so filtering by it leaves exactly the parts of the spec that some such entry owns |
| FieldFilter.OthersDoNotCount | web/src/utils/fieldFilter.ts:224-227 | an entry of any other operation, or of a subresource, wherever it stands in the list, leaves the merged set as it is |
| FieldFilter.CompactSpec | web/src/utils/fieldFilter.ts:254-266 | what is shown is part of the spec with nothing empty in it, chosen by the best signal that leaves anything; a narrowed spec is never empty |
| FieldFilter.NarrowedBySignals | web/src/utils/fieldFilter.ts:254-266 | the manifest in the annotation decides if it leaves anything, else the server-side applies if there is one and they leave anything, else nothing is left out but empties |
| Ages.ParseK8sAge | web/src/utils/tableSort.ts:18-28 | the loop over the matches adds them up |
| Ages.AcceptsExactlyAges | web/src/utils/tableSort.ts:17-28 | comparing lengths accepts exactly the sequences of one or more tokens, and their sum |
| Ages.AgesExactly | web/src/utils/tableSort.ts:5-28 | a text is read as so many milliseconds if and only if, trimmed, it is spelled by one or more tokens of digits and one of the seven units that are worth that much together |
| Ages.FormatDurationShort | web/src/utils/units.ts:69-79 | prints seconds, minutes, hours and minutes, days, or years and days |
| Ages.DaysSpelled | web/src/utils/units.ts:69-79 | a day and more is printed as days, or as years and the days behind them if there are any |
| Ages.HoursSpelled | web/src/utils/units.ts:69-79 | less as hours and the minutes behind them if there are any, as minutes, or as seconds |
| Ages.PrintThenParse | web/src/utils/units.ts:67-79 | a printed duration reads back as itself rounded down to what was printed |
| Ages.PrintingLoses | web/src/utils/units.ts:67-79 | exact below a minute, less than a minute lost within a day and less than a day beyond, never more than the truth, and monotone |
| Ages.CellReadsAsAge | web/src/utils/units.ts:81-86 | so an age cell reads back as the time that passed, to the unit printed, and a future timestamp as zero |
| Ages.ShowsAgeExactly | web/src/utils/units.ts:81-86 | a missing or empty timestamp, and one that is no date, show nothing; any other shows the whole seconds since, none for the future |
| TableSort.ComparesShapes | web/src/utils/tableSort.ts:48-67 | comparing two cells is comparing their shapes: numbers, ages, text, blanks, each by its own value |
| TableSort.ShapesExactly | web/src/utils/tableSort.ts:30-67 | blank are the four empty-ish texts, trimmed; a number is any other cell Number() takes; an age one it refuses that reads as one; the rest is text |
| TableSort.SortsByShape | web/src/utils/tableSort.ts:48-67 | two numbers compare by difference, two ages by their difference in seconds, two texts by locale; numbers come before ages and ages before text |
| TableSort.BlanksComeLast | web/src/utils/tableSort.ts:49-51 | and blanks behind everything else |
| TableSort.ComparatorIsTotalPreorder | web/src/utils/tableSort.ts:39-67 | the comparator is a total preorder on any mix of shapes, if localeCompare is one |
| TableSort.EveryPermutationSortsAlike | web/src/utils/tableSort.ts:43-46 | a column sorts alike from whatever order: cells in the same place compare as equal |
| TableSort.SortsAsAge | web/src/utils/tableSort.ts:48-61 | an age cell that Number() refuses is sorted as the time that passed, to the minute within a day and to the day beyond |
| TableSort.NewerSortsFirst | web/src/utils/units.ts:81-86 | in a column of such cells the newer object never comes behind the older |

## Left out

- WebSocket frames, client-go, `io.Pipe` and contexts: steps that succeed, fail or block; a write may fail at any time.
- The resize queue, `readAuthFrame`, `buildExecURL`, the SPDY fallback: small, with one branch each.
- Server-side adapters (discovery, metrics, auth, transport): decoding and status mapping with little state.
- Vue's scheduling: a watch runs when its source changes; the debounce sees the query as it was last set.
- UTF-16: a character is one element of a string, and the text decoder's partial code points are not modelled.
- Real clocks and floating point: integer milliseconds and exact numbers.
- The start, stop and loop of the watch, and the start() calls of the log stream while they await, are steps on values rather than methods of a class; aliasing of the abort controllers is modelled by the loop they belong to.
- The age of the log cursor (`sinceLastLine`), retry delays and the reset of the backoff after a long connection.
- The polling interval is constant over a run, and `tick` does not throw before it returns its promise.
- What `searchAllByName` and paging ask the server, and the watch's URL: of them the model has that they stop the watch, begin a load and replace the rows.
- `LiveTable` is on values, as its parts are combined there; each part has its own methods where the source updates in place.
- Property names inherited from `Object.prototype` (`constructor`, `__proto__`) as labels or field names.
- `formatBytes`, `formatCpu`, `parseQuantity`, container pickers, icons, column widths and chart axes.
