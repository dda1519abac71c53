/**
 The watch reader of web/src/composables/useWatch.ts: events cut out of a chunked stream, and the generations and
 abort signals that keep a superseded stream from delivering any.
 */
module WatchStream {
  import opened Wrappers

  import opened JsText
  import opened TextSplit
  import opened ResourceRows

  /**
   One line as the browser's JSON parser sees it. A failure is an ERROR event, gone when its code is 410, or a value
   that is no event at all and makes the reader throw.
   */
  datatype Wire = Data(event: WatchEvent) | Failure(gone: bool)
  type Parser = string -> Option<Wire>

  // ---------------------------------------------------------------- what a text says

  /** The events of some lines up to the first failure. */
  datatype Taken = Taken(events: seq<WatchEvent>, failure: Option<Wire>)

  function TakeLine(parse: Parser, taken: Taken, line: string): Taken {
    if taken.failure.Some? || Trim(line) == "" then taken
    else
      match parse(Trim(line))
      case None => taken
      case Some(Failure(gone)) => taken.(failure := Some(Failure(gone)))
      case Some(Data(event)) => taken.(events := taken.events + [event])
  }

  function TakeFrom(parse: Parser, taken: Taken, lines: seq<string>): Taken {
    if lines == [] then taken
    else TakeLine(parse, TakeFrom(parse, taken, lines[..|lines| - 1]), lines[|lines| - 1])
  }

  const Nothing := Taken([], None)

  /** What reading a text delivers: its complete lines count, the unfinished one at its end does not. */
  function Delivered(parse: Parser, text: string): Taken {
    TakeFrom(parse, Nothing, Complete(text))
  }

  lemma {:induction false} TakeAppend(parse: Parser, taken: Taken, a: seq<string>, b: seq<string>)
    ensures TakeFrom(parse, taken, a + b) == TakeFrom(parse, TakeFrom(parse, taken, a), b)
  {
    if b == [] {
      assert a + b == a;
    } else {
      assert (a + b)[..|a + b| - 1] == a + b[..|b| - 1];
      TakeAppend(parse, taken, a, b[..|b| - 1]);
    }
  }

  /** The line is an ERROR event, or no event at all. */
  predicate Fails(parse: Parser, line: string) {
    Trim(line) != "" && parse(Trim(line)).Some? && parse(Trim(line)).value.Failure?
  }

  /** The events of some lines, empty ones and ones that are no JSON left out. */
  function EventsOf(parse: Parser, lines: seq<string>): seq<WatchEvent> {
    if lines == [] then []
    else
      var front, last := EventsOf(parse, lines[..|lines| - 1]), lines[|lines| - 1];
      if Trim(last) != "" && parse(Trim(last)).Some? && parse(Trim(last)).value.Data?
      then front + [parse(Trim(last)).value.event] else front
  }

  /** What a text delivers is the events of its complete lines before the first that fails, and that failure. */
  lemma DeliversExactly(parse: Parser, lines: seq<string>, n: nat)
    requires n <= |lines| && (forall i | 0 <= i < n :: !Fails(parse, lines[i]))
    requires n < |lines| ==> Fails(parse, lines[n])
    ensures TakeFrom(parse, Nothing, lines)
         == Taken(EventsOf(parse, lines[..n]), if n < |lines| then parse(Trim(lines[n])) else None)
  {
    NothingFails(parse, lines[..n]);
    if n < |lines| {
      TakeOneMore(parse, lines[..n], lines[n]);
      FailureStaysBehind(parse, lines, n);
    } else {
      assert lines[..n] == lines;
    }
  }

  lemma {:induction false} NothingFails(parse: Parser, lines: seq<string>)
    requires forall i | 0 <= i < |lines| :: !Fails(parse, lines[i])
    ensures TakeFrom(parse, Nothing, lines) == Taken(EventsOf(parse, lines), None)
  {
    if lines != [] {
      NothingFails(parse, lines[..|lines| - 1]);
    }
  }

  lemma Around(lines: seq<string>, n: nat)
    requires n < |lines|
    ensures lines == (lines[..n] + [lines[n]]) + lines[n + 1..]
  {
  }

  lemma FailureStaysBehind(parse: Parser, lines: seq<string>, n: nat)
    requires n < |lines| && TakeFrom(parse, Nothing, lines[..n] + [lines[n]]).failure.Some?
    ensures TakeFrom(parse, Nothing, lines) == TakeFrom(parse, Nothing, lines[..n] + [lines[n]])
  {
    Around(lines, n);
    TakeAppend(parse, Nothing, lines[..n] + [lines[n]], lines[n + 1..]);
    FailureStays(parse, TakeFrom(parse, Nothing, lines[..n] + [lines[n]]), lines[n + 1..]);
  }

  /** Reading chunk by chunk, as the reader does. */
  function TakeChunks(parse: Parser, taken: Taken, carry: string, chunks: seq<string>): Taken
    decreases |chunks|
  {
    if chunks == [] then taken
    else TakeChunks(parse, TakeFrom(parse, taken, Complete(carry + chunks[0])), Rest(carry + chunks[0]), chunks[1..])
  }

  /** The same text in other chunks delivers the same events, and fails at the same line. */
  lemma {:induction false} ChunkingDoesNotMatter(parse: Parser, taken: Taken, carry: string, chunks: seq<string>)
    requires Complete(carry) == []
    ensures TakeChunks(parse, taken, carry, chunks) == TakeFrom(parse, taken, Complete(carry + Flat(chunks)))
    decreases |chunks|
  {
    if chunks == [] {
      assert carry + Flat(chunks) == carry;
    } else {
      var buffer, rest := carry + chunks[0], Flat(chunks[1..]);
      RestIsUnbroken(buffer);
      ChunkingDoesNotMatter(parse, TakeFrom(parse, taken, Complete(buffer)), Rest(buffer), chunks[1..]);
      Assoc(carry, chunks[0], rest);
      MoreText(buffer, rest);
      TakeAppend(parse, taken, Complete(buffer), Complete(Rest(buffer) + rest));
    }
  }

  // ---------------------------------------------------------------- the inner loop, on the table

  function ChangeOf(event: WatchEvent): Change {
    if event.kind.Bookmark? then Change([], false) else Change(event.rows, event.kind.Deleted?)
  }

  function Changes(events: seq<WatchEvent>): seq<Change> {
    seq(|events|, i requires 0 <= i < |events| => ChangeOf(events[i]))
  }

  /** String.indexOf("\n"). */
  method IndexOfNewline(buffer: string) returns (idx: int)
    ensures -1 <= idx < |buffer|
    ensures idx < 0 ==> '\n' !in buffer
    ensures idx >= 0 ==> buffer[idx] == '\n' && '\n' !in buffer[..idx]
  {
    idx := 0;
    while idx < |buffer|
      invariant 0 <= idx <= |buffer| && '\n' !in buffer[..idx]
    {
      if buffer[idx] == '\n' {
        return;
      }
      assert buffer[..idx + 1] == buffer[..idx] + [buffer[idx]];
      idx := idx + 1;
    }
    assert buffer[..idx] == buffer;
    idx := -1;
  }

  lemma FirstLine(buffer: string, idx: nat)
    requires idx < |buffer| && buffer[idx] == '\n' && '\n' !in buffer[..idx]
    ensures Parts(buffer) == [buffer[..idx]] + Parts(buffer[idx + 1..])
  {
    CutAt(buffer, idx);
    FirstLineAt(buffer[..idx], buffer[idx + 1..]);
  }

  lemma CutAt(buffer: string, idx: nat)
    requires idx < |buffer| && buffer[idx] == '\n'
    ensures buffer == buffer[..idx] + ("\n" + buffer[idx + 1..])
  {
  }

  lemma {:induction false} FirstLineAt(line: string, rest: string)
    requires '\n' !in line
    ensures Parts(line + ("\n" + rest)) == [line] + Parts(rest)
  {
    if line == "" {
      assert line + ("\n" + rest) == "\n" + rest;
      assert ("\n" + rest)[1..] == rest;
    } else {
      var tail := line[1..];
      assert (line + ("\n" + rest))[1..] == tail + ("\n" + rest);
      FirstLineAt(tail, rest);
      assert [line[0]] + tail == line;
    }
  }

  lemma {:induction false} FailureStays(parse: Parser, taken: Taken, lines: seq<string>)
    requires taken.failure.Some?
    ensures TakeFrom(parse, taken, lines) == taken
  {
    if lines != [] {
      FailureStays(parse, taken, lines[..|lines| - 1]);
    }
  }

  lemma TakeOneMore(parse: Parser, done: seq<string>, line: string)
    ensures TakeFrom(parse, Nothing, done + [line]) == TakeLine(parse, TakeFrom(parse, Nothing, done), line)
  {
    assert (done + [line])[..|done|] == done;
  }

  lemma ReplayOneMore(rows: seq<Row>, events: seq<WatchEvent>, event: WatchEvent)
    ensures Replayed(rows, Changes(events + [event])) == Changed(Replayed(rows, Changes(events)), ChangeOf(event))
  {
    assert Changes(events + [event])[..|events|] == Changes(events);
  }

  /** The last resourceVersion the events named. */
  function VersionAfter(version: string, events: seq<WatchEvent>): string {
    if events == [] then version
    else
      var last := events[|events| - 1].version;
      if last.Some? && last.value != "" then last.value else VersionAfter(version, events[..|events| - 1])
  }

  /** What the table has become after some events. */
  ghost predicate TableAfter(table: Table, rows: seq<Row>, version: string, events: seq<WatchEvent>)
    reads table
  {
    && table.Valid()
    && table.rows == Replayed(rows, Changes(events))
    && table.resourceVersion == VersionAfter(version, events)
  }

  method Deliver(table: Table, event: WatchEvent, ghost rows: seq<Row>, ghost version: string,
      ghost events: seq<WatchEvent>)
    requires TableAfter(table, rows, version, events)
    modifies table
    ensures TableAfter(table, rows, version, events + [event])
  {
    ReplayOneMore(rows, events, event);
    assert (events + [event])[..|events|] == events;
    table.HandleEvent(event);
  }

  /** What has been read of the buffered text: the lines before the cut, with no failure among them. */
  ghost predicate ReadSoFar(parse: Parser, whole: string, done: seq<string>, buffer: string) {
    Parts(whole) == done + Parts(buffer) && TakeFrom(parse, Nothing, done).failure.None?
  }

  lemma NextLine(parse: Parser, whole: string, done: seq<string>, buffer: string, idx: nat)
    requires Parts(whole) == done + Parts(buffer)
    requires idx < |buffer| && buffer[idx] == '\n' && '\n' !in buffer[..idx]
    ensures var line := buffer[..idx];
            var taken := TakeLine(parse, TakeFrom(parse, Nothing, done), line);
            && Parts(whole) == (done + [line]) + Parts(buffer[idx + 1..])
            && TakeFrom(parse, Nothing, done + [line]) == taken
            && (taken.failure.Some? ==> Delivered(parse, whole) == taken)
  {
    var line, rest := buffer[..idx], Parts(buffer[idx + 1..]);
    FirstLine(buffer, idx);
    TakeOneMore(parse, done, line);
    Assoc(done, [line], rest);
    if TakeFrom(parse, Nothing, done + [line]).failure.Some? {
      FailsHere(parse, whole, done + [line], rest);
    }
  }

  lemma FailsHere(parse: Parser, whole: string, done: seq<string>, rest: seq<string>)
    requires rest != [] && Parts(whole) == done + rest && TakeFrom(parse, Nothing, done).failure.Some?
    ensures Delivered(parse, whole) == TakeFrom(parse, Nothing, done)
  {
    LastOf(done, rest);
    TakeAppend(parse, Nothing, done, rest[..|rest| - 1]);
    FailureStays(parse, TakeFrom(parse, Nothing, done), rest[..|rest| - 1]);
  }

  lemma LastLine(parse: Parser, whole: string, done: seq<string>, buffer: string)
    requires Parts(whole) == done + Parts(buffer) && '\n' !in buffer
    ensures Delivered(parse, whole) == TakeFrom(parse, Nothing, done) && Rest(whole) == buffer
  {
    Unbroken(buffer);
  }

  /**
   One chunk, as read: every complete line in the buffer is taken off it, and its event goes to the table; the first
   failure ends the attempt.
   */
  method ReadChunk(parse: Parser, table: Table, carry: string, chunk: string)
    returns (buffer: string, failure: Option<Wire>, healthy: bool)
    requires table.Valid()
    modifies table
    ensures var taken := Delivered(parse, carry + chunk);
            && TableAfter(table, old(table.rows), old(table.resourceVersion), taken.events)
            && failure == taken.failure && healthy == (taken.events != [])
    ensures failure.None? ==> buffer == Rest(carry + chunk)
  {
    buffer, failure, healthy := carry + chunk, None, false;
    ghost var whole, done: seq<string>, events: seq<WatchEvent> := buffer, [], [];
    ghost var rows, version := table.rows, table.resourceVersion;
    var idx := IndexOfNewline(buffer);
    while idx >= 0
      invariant -1 <= idx < |buffer|
      invariant idx < 0 ==> '\n' !in buffer
      invariant idx >= 0 ==> buffer[idx] == '\n' && '\n' !in buffer[..idx]
      invariant ReadSoFar(parse, whole, done, buffer) && TakeFrom(parse, Nothing, done) == Taken(events, None)
      invariant TableAfter(table, rows, version, events) && healthy == (events != [])
      decreases |buffer|
    {
      NextLine(parse, whole, done, buffer, idx);
      var line := Trim(buffer[..idx]);
      done := done + [buffer[..idx]];
      buffer := buffer[idx + 1..];
      idx := IndexOfNewline(buffer);
      if line == "" {
        continue;
      }
      var wire := parse(line);
      if wire.None? {
        continue;
      }
      if wire.value.Failure? {
        failure := wire;
        return;
      }
      healthy := true;
      Deliver(table, wire.value.event, rows, version, events);
      events := events + [wire.value.event];
    }
    LastLine(parse, whole, done, buffer);
  }

  // ---------------------------------------------------------------- attempts, stop and start

  const INITIAL_BACKOFF: nat := 1000
  const MAX_BACKOFF: nat := 30000

  /** Where a loop() is: its attempt fetching or reading, waiting to try again, or returned. */
  datatype Phase = Fetching | Reading(carry: string, text: string, sent: seq<WatchEvent>) | Backoff | Ended

  /** A running loop(), and the abort signal of its latest attempt. */
  datatype Loop = Loop(gen: nat, aborted: bool, phase: Phase)

  datatype State = State(
    stopped: bool,
    generation: nat,
    backoff: nat,
    controller: Option<nat>,     // the loop whose attempt stop() would abort
    loops: seq<Loop>,
    delivered: seq<WatchEvent>,  // everything onEvent was ever called with
    stale: nat)                  // how often onStale was called

  const Fresh: State := State(true, 0, INITIAL_BACKOFF, None, [], [], 0)

  datatype Outcome = Stale | Retry | Aborted

  datatype Event =
    | Start(url: bool)             // does buildUrl give a URL
    | Stop
    | Response(k: nat, result: Fetched)
    | Chunk(k: nat, chunk: string)
    | Done(k: nat)
    | Breaks(k: nat)
    | BackoffOver(k: nat, url: bool)

  datatype Fetched = Body | NoBody | Gone | Unauthorized | Broken

  predicate Enabled(s: State, e: Event) {
    match e
    case Start(_) => true
    case Stop => true
    case Response(k, _) => k < |s.loops| && s.loops[k].phase.Fetching?
    case Chunk(k, _) => k < |s.loops| && s.loops[k].phase.Reading?
    case Done(k) => k < |s.loops| && s.loops[k].phase.Reading?
    case Breaks(k) => k < |s.loops| && s.loops[k].phase.Reading?
    case BackoffOver(k, _) => k < |s.loops| && s.loops[k].phase.Backoff?
  }

  function Stopped(s: State): State {
    var s1 := s.(stopped := true, generation := s.generation + 1, controller := None);
    match s.controller
    case Some(k) => if k < |s.loops| then s1.(loops := s.loops[k := s.loops[k].(aborted := true)]) else s1
    case None => s1
  }

  predicate Current(s: State, k: nat)
    requires k < |s.loops|
  {
    !s.stopped && s.loops[k].gen == s.generation
  }

  /** The next iteration of loop k, if it still is the one to run: a new attempt, which ends at once without a URL. */
  function Iterate(s: State, k: nat, url: bool): State
    requires k < |s.loops|
  {
    if !Current(s, k) then s.(loops := s.loops[k := s.loops[k].(phase := Ended)])
    else
      s.(controller := Some(k),
         loops := s.loops[k := Loop(s.loops[k].gen, !url, if url then Fetching else Ended)])
  }

  /** runOnce returned: the attempt is closed for good, and the loop goes on only if it still is the current one. */
  function Attempted(s: State, k: nat, outcome: Outcome): State
    requires k < |s.loops|
  {
    var goesOn := Current(s, k) && outcome.Retry?;
    var s1 := s.(loops := s.loops[k := Loop(s.loops[k].gen, true, if goesOn then Backoff else Ended)]);
    if Current(s, k) && outcome.Stale? then s1.(stopped := true, stale := s.stale + 1) else s1
  }

  function OrAborted(s: State, k: nat, outcome: Outcome): Outcome
    requires k < |s.loops|
  {
    if s.loops[k].aborted then Aborted else outcome
  }

  /** A chunk came in on an attempt that was not aborted. */
  function Took(parse: Parser, s: State, k: nat, chunk: string): State
    requires k < |s.loops| && s.loops[k].phase.Reading?
  {
    var p := s.loops[k].phase;
    var taken := Delivered(parse, p.carry + chunk);
    var s1 := s.(delivered := s.delivered + taken.events,
        backoff := if taken.events != [] then INITIAL_BACKOFF else s.backoff);
    match taken.failure
    case None =>
      s1.(loops := s.loops[k := s.loops[k].(phase := Reading(Rest(p.carry + chunk), p.text + chunk,
          p.sent + taken.events))])
    case Some(wire) => Attempted(s1, k, if wire.Failure? && wire.gone then Stale else Retry)
  }

  function Step(parse: Parser, s: State, e: Event): State
    requires Enabled(s, e)
  {
    match e
    case Start(url) =>
      var s1 := Stopped(s);
      var s2 := s1.(stopped := false, backoff := INITIAL_BACKOFF, generation := s1.generation + 1);
      Iterate(s2.(loops := s2.loops + [Loop(s2.generation, false, Backoff)]), |s2.loops|, url)
    case Stop => Stopped(s)
    case Response(k, result) =>
      (match result
       case Body => s.(loops := s.loops[k := s.loops[k].(phase := Reading("", "", []))])
       case NoBody => Attempted(s, k, Retry)
       case Gone => Attempted(s, k, OrAborted(s, k, Stale))
       case Unauthorized => Attempted(s, k, Aborted)
       case Broken => Attempted(s, k, OrAborted(s, k, Retry)))
    case Chunk(k, chunk) => if s.loops[k].aborted then Attempted(s, k, Aborted) else Took(parse, s, k, chunk)
    case Done(k) => Attempted(s, k, OrAborted(s, k, Retry))
    case Breaks(k) => Attempted(s, k, OrAborted(s, k, Retry))
    case BackoffOver(k, url) =>
      Iterate(s.(backoff := if 2 * s.backoff < MAX_BACKOFF then 2 * s.backoff else MAX_BACKOFF), k, url)
  }

  predicate IsRun(parse: Parser, s: State, es: seq<Event>)
    decreases |es|
  {
    es == [] || (Enabled(s, es[0]) && IsRun(parse, Step(parse, s, es[0]), es[1..]))
  }

  function Run(parse: Parser, s: State, es: seq<Event>): State
    requires IsRun(parse, s, es)
    decreases |es|
  {
    if es == [] then s else Run(parse, Step(parse, s, es[0]), es[1..])
  }

  // ---------------------------------------------------------------- the invariant

  ghost predicate LoopInv(parse: Parser, s: State, k: nat, l: Loop) {
    && l.gen <= s.generation
    && (l.gen == s.generation ==> k == |s.loops| - 1)
    && ((l.phase.Fetching? || l.phase.Reading?) && !l.aborted ==>
          !s.stopped && l.gen == s.generation && s.controller == Some(k))
    && (l.phase.Reading? ==>
        Delivered(parse, l.phase.text) == Taken(l.phase.sent, None) && l.phase.carry == Rest(l.phase.text))
  }

  ghost predicate Inv(parse: Parser, s: State) {
    && (forall k: nat | k < |s.loops| :: LoopInv(parse, s, k, s.loops[k]))
    && INITIAL_BACKOFF <= s.backoff <= MAX_BACKOFF
    && (s.controller.Some? ==> s.controller.value < |s.loops|)
  }

  /** A step that changes loop k only, and nothing the others depend on. */
  lemma OneLoopChanges(parse: Parser, s: State, next: State, k: nat)
    requires Inv(parse, s) && k < |s.loops| == |next.loops|
    requires forall n: nat | n < |s.loops| && n != k :: next.loops[n] == s.loops[n]
    requires next.generation == s.generation && LoopInv(parse, next, k, next.loops[k])
    requires (next.stopped == s.stopped && next.controller == s.controller) || s.loops[k].gen == s.generation
    requires INITIAL_BACKOFF <= next.backoff <= MAX_BACKOFF
    requires next.controller.Some? ==> next.controller.value < |next.loops|
    ensures Inv(parse, next)
  {
    forall n: nat | n < |next.loops| ensures LoopInv(parse, next, n, next.loops[n]) {
      assert LoopInv(parse, s, n, s.loops[n]);
      assert LoopInv(parse, s, k, s.loops[k]);
    }
  }

  lemma StoppedKeepsInv(parse: Parser, s: State)
    requires Inv(parse, s)
    ensures Inv(parse, Stopped(s)) && |Stopped(s).loops| == |s.loops|
  {
    var next := Stopped(s);
    forall n: nat | n < |next.loops| ensures LoopInv(parse, next, n, next.loops[n]) {
      assert LoopInv(parse, s, n, s.loops[n]);
    }
  }

  lemma IterateKeepsInv(parse: Parser, s: State, k: nat, url: bool)
    requires Inv(parse, s) && k < |s.loops|
    ensures Inv(parse, Iterate(s, k, url))
  {
    assert LoopInv(parse, s, k, s.loops[k]);
    OneLoopChanges(parse, s, Iterate(s, k, url), k);
  }

  lemma AttemptedKeepsInv(parse: Parser, s: State, k: nat, outcome: Outcome)
    requires Inv(parse, s) && k < |s.loops|
    ensures Inv(parse, Attempted(s, k, outcome))
  {
    assert LoopInv(parse, s, k, s.loops[k]);
    OneLoopChanges(parse, s, Attempted(s, k, outcome), k);
  }

  lemma StartKeepsInv(parse: Parser, s: State, url: bool)
    requires Inv(parse, s)
    ensures Inv(parse, Step(parse, s, Start(url)))
  {
    StoppedKeepsInv(parse, s);
    var s1 := Stopped(s);
    var s2 := s1.(stopped := false, backoff := INITIAL_BACKOFF, generation := s1.generation + 1,
                  loops := s1.loops + [Loop(s1.generation + 1, false, Backoff)]);
    forall n: nat | n < |s2.loops| ensures LoopInv(parse, s2, n, s2.loops[n]) {
      if n < |s1.loops| {
        assert LoopInv(parse, s, n, s.loops[n]);
        assert LoopInv(parse, s1, n, s1.loops[n]);
      }
    }
    IterateKeepsInv(parse, s2, |s1.loops|, url);
  }

  /** What a chunk adds to what the attempt has sent so far. */
  lemma ReadsOn(parse: Parser, text: string, sent: seq<WatchEvent>, chunk: string)
    requires Delivered(parse, text) == Taken(sent, None)
    ensures var taken := Delivered(parse, Rest(text) + chunk);
            Delivered(parse, text + chunk) == Taken(sent + taken.events, taken.failure)
    ensures Rest(Rest(text) + chunk) == Rest(text + chunk)
  {
    MoreText(text, chunk);
    TakeAppend(parse, Nothing, Complete(text), Complete(Rest(text) + chunk));
    TakeFromLater(parse, sent, Complete(Rest(text) + chunk));
  }

  lemma {:induction false} TakeFromLater(parse: Parser, sent: seq<WatchEvent>, lines: seq<string>)
    ensures var taken := TakeFrom(parse, Nothing, lines);
            TakeFrom(parse, Taken(sent, None), lines) == Taken(sent + taken.events, taken.failure)
  {
    if lines == [] {
      assert sent + [] == sent;
    } else {
      var front, last := lines[..|lines| - 1], lines[|lines| - 1];
      TakeFromLater(parse, sent, front);
      var taken := TakeFrom(parse, Nothing, front);
      TakeLineLater(parse, sent, taken, last);
    }
  }

  lemma TakeLineLater(parse: Parser, sent: seq<WatchEvent>, taken: Taken, line: string)
    ensures var next := TakeLine(parse, taken, line);
            TakeLine(parse, Taken(sent + taken.events, taken.failure), line) == Taken(sent + next.events, next.failure)
  {
    var wire := parse(Trim(line));
    if wire.Some? && wire.value.Data? {
      assert sent + (taken.events + [wire.value.event]) == (sent + taken.events) + [wire.value.event];
    }
  }

  lemma ChunkKeepsInv(parse: Parser, s: State, k: nat, chunk: string)
    requires Inv(parse, s) && Enabled(s, Chunk(k, chunk)) && !s.loops[k].aborted
    ensures Inv(parse, Took(parse, s, k, chunk))
  {
    var p := s.loops[k].phase;
    var taken := Delivered(parse, p.carry + chunk);
    assert LoopInv(parse, s, k, s.loops[k]);
    ReadsOn(parse, p.text, p.sent, chunk);
    var s1 := s.(delivered := s.delivered + taken.events,
        backoff := if taken.events != [] then INITIAL_BACKOFF else s.backoff);
    OneLoopChanges(parse, s, s1, k);
    match taken.failure
    case None => OneLoopChanges(parse, s, Took(parse, s, k, chunk), k);
    case Some(wire) => AttemptedKeepsInv(parse, s1, k, if wire.Failure? && wire.gone then Stale else Retry);
  }

  lemma StepKeepsInv(parse: Parser, s: State, e: Event)
    requires Inv(parse, s) && Enabled(s, e)
    ensures Inv(parse, Step(parse, s, e))
  {
    match e
    case Start(url) => StartKeepsInv(parse, s, url);
    case Stop => StoppedKeepsInv(parse, s);
    case Response(k, result) => ResponseKeepsInv(parse, s, k, result);
    case Chunk(k, chunk) =>
      if s.loops[k].aborted {
        AttemptedKeepsInv(parse, s, k, Aborted);
      } else {
        ChunkKeepsInv(parse, s, k, chunk);
      }
    case Done(k) => AttemptedKeepsInv(parse, s, k, OrAborted(s, k, Retry));
    case Breaks(k) => AttemptedKeepsInv(parse, s, k, OrAborted(s, k, Retry));
    case BackoffOver(k, url) =>
      var s1 := s.(backoff := if 2 * s.backoff < MAX_BACKOFF then 2 * s.backoff else MAX_BACKOFF);
      assert LoopInv(parse, s, k, s.loops[k]);
      OneLoopChanges(parse, s, s1, k);
      IterateKeepsInv(parse, s1, k, url);
  }

  lemma ResponseKeepsInv(parse: Parser, s: State, k: nat, result: Fetched)
    requires Inv(parse, s) && Enabled(s, Response(k, result))
    ensures Inv(parse, Step(parse, s, Response(k, result)))
  {
    match result
    case Body =>
      assert LoopInv(parse, s, k, s.loops[k]);
      OneLoopChanges(parse, s, Step(parse, s, Response(k, result)), k);
    case NoBody => AttemptedKeepsInv(parse, s, k, Retry);
    case Gone => AttemptedKeepsInv(parse, s, k, OrAborted(s, k, Stale));
    case Unauthorized => AttemptedKeepsInv(parse, s, k, Aborted);
    case Broken => AttemptedKeepsInv(parse, s, k, OrAborted(s, k, Retry));
  }

  lemma {:induction false} RunKeepsInv(parse: Parser, s: State, es: seq<Event>)
    requires Inv(parse, s) && IsRun(parse, s, es)
    ensures Inv(parse, Run(parse, s, es))
    decreases |es|
  {
    if es != [] {
      StepKeepsInv(parse, s, es[0]);
      RunKeepsInv(parse, Step(parse, s, es[0]), es[1..]);
    }
  }

  // ---------------------------------------------------------------- main results

  /** Between stop() and the next start() nothing is delivered, however many chunks still come in. */
  lemma {:induction false} StoppedIsSilent(parse: Parser, s: State, es: seq<Event>)
    requires Inv(parse, s) && s.stopped && IsRun(parse, s, es)
    requires forall i | 0 <= i < |es| :: !es[i].Start?
    ensures Run(parse, s, es).delivered == s.delivered && Run(parse, s, es).stopped &&
        Run(parse, s, es).stale == s.stale
    decreases |es|
  {
    if es != [] {
      assert !es[0].Start?;
      StoppedStep(parse, s, es[0]);
      StepKeepsInv(parse, s, es[0]);
      StoppedIsSilent(parse, Step(parse, s, es[0]), es[1..]);
    }
  }

  lemma StoppedStep(parse: Parser, s: State, e: Event)
    requires Inv(parse, s) && s.stopped && Enabled(s, e) && !e.Start?
    ensures var next := Step(parse, s, e); next.delivered == s.delivered && next.stopped && next.stale == s.stale
  {
    if e.Chunk? {
      assert LoopInv(parse, s, e.k, s.loops[e.k]);
    }
  }

  /** Whatever is delivered comes from the loop started last, which is not stopped. */
  lemma OnlyTheCurrentDelivers(parse: Parser, es: seq<Event>, e: Event)
    requires IsRun(parse, Fresh, es)
    requires var s := Run(parse, Fresh, es);
             Enabled(s, e) && Step(parse, s, e).delivered != s.delivered
    ensures var s := Run(parse, Fresh, es); e.Chunk? && Current(s, e.k) && e.k == |s.loops| - 1
  {
    RunKeepsInv(parse, Fresh, es);
    var s := Run(parse, Fresh, es);
    if e.Chunk? {
      assert LoopInv(parse, s, e.k, s.loops[e.k]);
    }
  }

  /** No two attempts are ever open at once. */
  lemma OneAttemptAtATime(parse: Parser, es: seq<Event>, j: nat, k: nat)
    requires IsRun(parse, Fresh, es)
    requires var s := Run(parse, Fresh, es);
             && j < |s.loops| && k < |s.loops| && !s.loops[j].aborted && !s.loops[k].aborted
             && (s.loops[j].phase.Fetching? || s.loops[j].phase.Reading?)
             && (s.loops[k].phase.Fetching? || s.loops[k].phase.Reading?)
    ensures j == k
  {
    RunKeepsInv(parse, Fresh, es);
    var s := Run(parse, Fresh, es);
    assert LoopInv(parse, s, j, s.loops[j]) && LoopInv(parse, s, k, s.loops[k]);
  }

  /** The wait between attempts stays between one second and thirty, and an event that arrives brings it back to one. */
  lemma BackoffStaysInRange(parse: Parser, es: seq<Event>, e: Event)
    requires IsRun(parse, Fresh, es) && Enabled(Run(parse, Fresh, es), e)
    ensures var s := Run(parse, Fresh, es);
            var next := Step(parse, s, e);
            && INITIAL_BACKOFF <= next.backoff <= MAX_BACKOFF
            && (next.delivered != s.delivered ==> next.backoff == INITIAL_BACKOFF)
  {
    RunKeepsInv(parse, Fresh, es);
    var s := Run(parse, Fresh, es);
    StepKeepsInv(parse, s, e);
    if e.Chunk? {
      assert s.delivered + [] == s.delivered;
    }
  }

  /** An open attempt has sent exactly the events of the complete lines of the text it has read. */
  lemma SentIsWhatTheTextSays(parse: Parser, es: seq<Event>, k: nat)
    requires IsRun(parse, Fresh, es)
    requires var s := Run(parse, Fresh, es); k < |s.loops| && s.loops[k].phase.Reading?
    ensures var p := Run(parse, Fresh, es).loops[k].phase; Delivered(parse, p.text) == Taken(p.sent, None)
  {
    RunKeepsInv(parse, Fresh, es);
    var s := Run(parse, Fresh, es);
    assert LoopInv(parse, s, k, s.loops[k]);
  }

  // ---------------------------------------------------------------- what becomes of an attempt

  /** The loop that is current has not been aborted in what it is doing. */
  ghost predicate LiveInv(s: State) {
    forall k | 0 <= k < |s.loops| && Current(s, k) && (s.loops[k].phase.Fetching? || s.loops[k].phase.Reading?) ::
      !s.loops[k].aborted
  }

  lemma StepKeepsLive(parse: Parser, s: State, e: Event)
    requires Inv(parse, s) && LiveInv(s) && Enabled(s, e)
    ensures LiveInv(Step(parse, s, e))
  {
    match e
    case Start(url) =>
      var s1 := Stopped(s);
      forall k | 0 <= k < |s.loops| ensures s1.loops[k].gen < s1.generation + 1 {
        assert LoopInv(parse, s, k, s.loops[k]);
      }
    case Chunk(k, chunk) =>
      if !s.loops[k].aborted {
        TookKeepsLive(parse, s, k, chunk);
      }
    case _ =>
  }

  lemma TookKeepsLive(parse: Parser, s: State, k: nat, chunk: string)
    requires LiveInv(s) && k < |s.loops| && s.loops[k].phase.Reading? && !s.loops[k].aborted
    ensures LiveInv(Took(parse, s, k, chunk))
  {
  }

  lemma {:induction false} RunKeepsLive(parse: Parser, s: State, es: seq<Event>)
    requires Inv(parse, s) && LiveInv(s) && IsRun(parse, s, es)
    ensures LiveInv(Run(parse, s, es))
    decreases |es|
  {
    if es != [] {
      StepKeepsInv(parse, s, es[0]);
      StepKeepsLive(parse, s, es[0]);
      RunKeepsLive(parse, Step(parse, s, es[0]), es[1..]);
    }
  }

  /** Every attempt that is over has been aborted, so that its fetch is not left open. */
  ghost predicate ClosedInv(s: State) {
    forall k | 0 <= k < |s.loops| && (s.loops[k].phase.Backoff? || s.loops[k].phase.Ended?) :: s.loops[k].aborted
  }

  lemma StepCloses(parse: Parser, s: State, e: Event)
    requires ClosedInv(s) && Enabled(s, e)
    ensures ClosedInv(Step(parse, s, e))
  {
    if e.Chunk? && !s.loops[e.k].aborted {
      TookCloses(parse, s, e.k, e.chunk);
    }
  }

  lemma TookCloses(parse: Parser, s: State, k: nat, chunk: string)
    requires ClosedInv(s) && k < |s.loops| && s.loops[k].phase.Reading?
    ensures ClosedInv(Took(parse, s, k, chunk))
  {
  }

  lemma {:induction false} AttemptsAreClosed(parse: Parser, s: State, es: seq<Event>)
    requires ClosedInv(s) && IsRun(parse, s, es)
    ensures ClosedInv(Run(parse, s, es))
    decreases |es|
  {
    if es != [] {
      StepCloses(parse, s, es[0]);
      AttemptsAreClosed(parse, Step(parse, s, es[0]), es[1..]);
    }
  }

  /** Loop k waits and will try again; nothing else has changed. */
  ghost predicate Retries(s: State, next: State, k: nat)
    requires k < |s.loops| == |next.loops|
  {
    && next.loops[k].phase == Backoff && next.stopped == s.stopped && next.generation == s.generation
    && next.stale == s.stale
  }

  /** Loop k is over, and the watch asked for a relist and stopped. */
  ghost predicate Relists(s: State, next: State, k: nat)
    requires k < |s.loops| == |next.loops|
  {
    next.loops[k].phase == Ended && next.stopped && next.stale == s.stale + 1
  }

  /** Loop k is over, and nothing follows. */
  ghost predicate GivesUp(s: State, next: State, k: nat)
    requires k < |s.loops| == |next.loops|
  {
    next.loops[k].phase == Ended && next.stopped == s.stopped && next.stale == s.stale
  }

  /**
   What an answer leads to, for the loop that is current: a body is read from its beginning; 410 Gone asks for a relist;
   401 ends the watch; no body, or any other failure, is retried after a wait.
   */
  lemma AnswersExactly(parse: Parser, es: seq<Event>, k: nat, result: Fetched)
    requires IsRun(parse, Fresh, es) && Enabled(Run(parse, Fresh, es), Response(k, result))
    requires Current(Run(parse, Fresh, es), k)
    ensures var s := Run(parse, Fresh, es);
            var next := Step(parse, s, Response(k, result));
            && next.delivered == s.delivered && next.backoff == s.backoff
            && match result
               case Body => next.loops[k].phase == Reading("", "", []) && next.stale == s.stale && Current(next, k)
               case Gone => Relists(s, next, k)
               case Unauthorized => GivesUp(s, next, k)
               case NoBody => Retries(s, next, k)
               case Broken => Retries(s, next, k)
  {
    RunKeepsInv(parse, Fresh, es);
    RunKeepsLive(parse, Fresh, es);
  }

  /**
   What reading leads to: a chunk delivers the events of the lines it completes up to the first failure; an ERROR event
   of code 410 asks for a relist, any other failure is retried, as is the end of the stream and a read that fails.
   */
  lemma ReadsExactly(parse: Parser, es: seq<Event>, e: Event)
    requires IsRun(parse, Fresh, es) && Enabled(Run(parse, Fresh, es), e) && (e.Chunk? || e.Done? || e.Breaks?)
    requires Current(Run(parse, Fresh, es), e.k)
    ensures var s := Run(parse, Fresh, es);
            var next := Step(parse, s, e);
            if e.Chunk? then
              var text := s.loops[e.k].phase.carry + e.chunk;
              var taken := Delivered(parse, text);
              && next.delivered == s.delivered + taken.events
              && (taken.failure.None? ==>
                    && next.loops[e.k].phase.Reading? && next.loops[e.k].phase.carry == Rest(text)
                    && next.stale == s.stale && Current(next, e.k))
              && (taken.failure == Some(Failure(true)) ==> Relists(s, next, e.k))
              && (taken.failure == Some(Failure(false)) ==> Retries(s, next, e.k))
              && (taken.failure.Some? ==> taken.failure.value.Failure?)
            else next.delivered == s.delivered && Retries(s, next, e.k)
  {
    RunKeepsInv(parse, Fresh, es);
    RunKeepsLive(parse, Fresh, es);
    if e.Chunk? {
      FailuresFail(parse, Complete(Run(parse, Fresh, es).loops[e.k].phase.carry + e.chunk));
    }
  }

  lemma {:induction false} FailuresFail(parse: Parser, lines: seq<string>)
    ensures TakeFrom(parse, Nothing, lines).failure.Some? ==> TakeFrom(parse, Nothing, lines).failure.value.Failure?
  {
    if lines != [] {
      FailuresFail(parse, lines[..|lines| - 1]);
    }
  }

  /** A loop that is not current any more ends with whatever its attempt or its wait comes to, and says nothing. */
  lemma SupersededJustEnds(parse: Parser, es: seq<Event>, e: Event)
    requires IsRun(parse, Fresh, es) && Enabled(Run(parse, Fresh, es), e)
    requires e.Chunk? || e.Done? || e.Breaks? || e.BackoffOver? || (e.Response? && e.result != Body)
    requires !Current(Run(parse, Fresh, es), e.k)
    ensures var s := Run(parse, Fresh, es);
            GivesUp(s, Step(parse, s, e), e.k) && Step(parse, s, e).delivered == s.delivered
  {
    RunKeepsInv(parse, Fresh, es);
    var s := Run(parse, Fresh, es);
    assert LoopInv(parse, s, e.k, s.loops[e.k]);
  }

  /** When its wait is over the current loop tries again, if there is a URL; and start() tries at once. */
  lemma TriesAgain(parse: Parser, s: State, e: Event)
    requires Enabled(s, e) && (e.Start? || (e.BackoffOver? && Current(s, e.k)))
    ensures var next := Step(parse, s, e);
            var k := if e.Start? then |s.loops| else e.k;
            && |next.loops| == (if e.Start? then |s.loops| + 1 else |s.loops|)
            && Current(next, k) && next.stale == s.stale && next.delivered == s.delivered
            && (if e.url then next.loops[k].phase == Fetching && !next.loops[k].aborted && next.controller == Some(k)
                else next.loops[k].phase == Ended)
            && (e.Start? ==> next.backoff == INITIAL_BACKOFF)
  {
  }

  /** Since the last start() or delivery: the waits ended by the loop that is current, and by others. */
  datatype Waits = Waits(own: nat, superseded: nat)

  function Counted(parse: Parser, s: State, n: Waits, e: Event): Waits
    requires Enabled(s, e)
  {
    if e.Start? || Step(parse, s, e).delivered != s.delivered then Waits(0, 0)
    else if !e.BackoffOver? then n
    else if Current(s, e.k) then n.(own := n.own + 1)
    else n.(superseded := n.superseded + 1)
  }

  function WaitsOf(parse: Parser, s: State, n: Waits, es: seq<Event>): Waits
    requires IsRun(parse, s, es)
    decreases |es|
  {
    if es == [] then n else WaitsOf(parse, Step(parse, s, es[0]), Counted(parse, s, n, es[0]), es[1..])
  }

  /** The wait after n failures in a row: doubled each time, up to the cap. */
  function Doubled(n: nat): (ms: nat)
    ensures INITIAL_BACKOFF <= ms <= MAX_BACKOFF
  {
    if n == 0 then INITIAL_BACKOFF
    else if 2 * Doubled(n - 1) < MAX_BACKOFF then 2 * Doubled(n - 1) else MAX_BACKOFF
  }

  lemma CapReached(n: nat)
    ensures Doubled(n) == MAX_BACKOFF <==> n >= 5
  {
    assert Doubled(1) == 2000 && Doubled(2) == 4000 && Doubled(3) == 8000 && Doubled(4) == 16000;
    if n > 5 {
      CapReached(n - 1);
    }
  }

  lemma {:induction false} DoublesOn(n: nat, more: nat)
    ensures Doubled(n) <= Doubled(n + more)
    ensures Doubled(n) == Doubled(n + more) <==> more == 0 || n >= 5
    decreases more
  {
    CapReached(n);
    CapReached(n + more);
    if more > 0 {
      DoublesOn(n, more - 1);
    }
  }

  lemma StepCounts(parse: Parser, s: State, n: Waits, e: Event)
    requires Enabled(s, e) && s.backoff == Doubled(n.own + n.superseded)
    ensures var m := Counted(parse, s, n, e); Step(parse, s, e).backoff == Doubled(m.own + m.superseded)
  {
    if e.Chunk? {
      assert s.delivered + [] == s.delivered;
    }
  }

  lemma {:induction false} BackoffCountsAllWaits(parse: Parser, s: State, n: Waits, es: seq<Event>)
    requires IsRun(parse, s, es) && s.backoff == Doubled(n.own + n.superseded)
    ensures var m := WaitsOf(parse, s, n, es); Run(parse, s, es).backoff == Doubled(m.own + m.superseded)
    decreases |es|
  {
    if es != [] {
      StepCounts(parse, s, n, es[0]);
      BackoffCountsAllWaits(parse, Step(parse, s, es[0]), Counted(parse, s, n, es[0]), es[1..]);
    }
  }

  /**
   A watch's backoff is that of its own failures exactly when no superseded loop ended a wait since the watch was
   started or last delivered, or the watch has reached the cap by itself.
   */
  lemma BackoffIsItsOwnExactly(parse: Parser, es: seq<Event>)
    requires IsRun(parse, Fresh, es)
    ensures var n := WaitsOf(parse, Fresh, Waits(0, 0), es);
            Run(parse, Fresh, es).backoff == Doubled(n.own) <==> n.superseded == 0 || n.own >= 5
  {
    BackoffCountsAllWaits(parse, Fresh, Waits(0, 0), es);
    var n := WaitsOf(parse, Fresh, Waits(0, 0), es);
    DoublesOn(n.own, n.superseded);
  }

  /**
   It can happen: a loop that was superseded while it waited still doubles the backoff, which by then belongs to the
   new loop, so that a restart during a wait makes the new watch's first retry wait twice as long as it should.
   */
  lemma SupersededWaitStillCounts(parse: Parser)
    ensures var es := [Start(true), Response(0, Broken), Start(true), BackoffOver(0, true)];
            && IsRun(parse, Fresh, es)
            && !Current(Run(parse, Fresh, es), 0) && Current(Run(parse, Fresh, es), 1)
            && Run(parse, Fresh, es).backoff == 2 * INITIAL_BACKOFF
  {
    var es := [Start(true), Response(0, Broken), Start(true), BackoffOver(0, true)];
    var s1 := Step(parse, Fresh, Start(true));
    var s2 := Step(parse, s1, Response(0, Broken));
    var s3 := Step(parse, s2, Start(true));
    var s4 := Step(parse, s3, BackoffOver(0, true));
    RunCons(parse, s3, BackoffOver(0, true), []);
    RunCons(parse, s2, Start(true), [BackoffOver(0, true)]);
    RunCons(parse, s1, Response(0, Broken), [Start(true), BackoffOver(0, true)]);
    RunCons(parse, Fresh, Start(true), [Response(0, Broken), Start(true), BackoffOver(0, true)]);
    assert Run(parse, s4, []) == s4;
    assert [Start(true)] + ([Response(0, Broken)] + ([Start(true)] + [BackoffOver(0, true)])) == es;
  }

  lemma RunCons(parse: Parser, s: State, e: Event, es: seq<Event>)
    requires Enabled(s, e) && IsRun(parse, Step(parse, s, e), es)
    ensures IsRun(parse, s, [e] + es) && Run(parse, s, [e] + es) == Run(parse, Step(parse, s, e), es)
  {
    assert ([e] + es)[1..] == es;
  }
}
