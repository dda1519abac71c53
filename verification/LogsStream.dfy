/**
 The pod log stream of web/src/composables/useLogsStream.ts: a bounded buffer appended to in place, a staging
 buffer merged into it at most once per window, reconnects, and generations that disown superseded streams.

 `View` is the composable's state as a value; the class at the end does the same work in place and is proved
 equal to the functions on `View`. `World` adds the running start() calls and remembers what arrived.
 */
module LogsStream {
  import opened Wrappers

  import opened TextSplit

  const MAX_LINES: nat := 200000

  datatype View = View(
    lines: seq<string>,
    pending: seq<string>,
    dropped: nat,
    version: nat,
    truncated: bool,
    generation: nat,
    timer: Option<nat>,      // the generation the flush timer was armed for
    running: bool,
    error: Option<string>,
    reconnecting: Option<string>)

  // ---------------------------------------------------------------- what the functions do

  /** The last MAX_LINES of them. */
  function Tail(items: seq<string>): (r: seq<string>)
    ensures |r| == if |items| <= MAX_LINES then |items| else MAX_LINES
  {
    if |items| <= MAX_LINES then items else items[|items| - MAX_LINES..]
  }

  predicate Overflows(items: seq<string>) {
    |items| > MAX_LINES
  }

  function Flushed(v: View): View {
    var w := v.(timer := None);
    if v.pending == [] then w
    else
      var merged := v.lines + v.pending;
      w.(lines := Tail(merged), pending := [], dropped := v.dropped + |merged| - |Tail(merged)|,
         truncated := v.truncated || Overflows(merged), version := v.version + 1)
  }

  function Appended(v: View, newLines: seq<string>): View {
    if newLines == [] then v
    else
      v.(pending := Tail(v.pending + newLines), truncated := v.truncated || Overflows(v.pending + newLines),
         timer := if v.timer.Some? then v.timer else Some(v.generation))
  }

  function WasReset(v: View): View {
    v.(lines := [], dropped := 0, version := v.version + 1)
  }

  function Stopped(v: View): View {
    v.(generation := v.generation + 1, pending := [], timer := None, running := false, reconnecting := None)
  }

  function Started(v: View): View {
    WasReset(Stopped(v)).(error := None, truncated := false, running := true)
  }

  function Finished(v: View): View {
    Flushed(v).(running := false, reconnecting := None)
  }

  function TimerFired(v: View): View
    requires v.timer.Some?
  {
    var w := v.(timer := None);
    if v.timer.value == v.generation then Flushed(w) else w
  }

  // ---------------------------------------------------------------- the running start() calls

  datatype Phase =
    | Connecting
    | Reading(carry: string)
    | Waiting
    | Done

  datatype Task = Task(gen: nat, phase: Phase)

  /** The text one connection delivered; a cut one ended in a failure, and its unfinished line is not shown. */
  datatype Delivery = Delivery(text: string, cut: bool)

  datatype World = World(
    view: View,
    tasks: seq<Task>,
    past: seq<Delivery>,    // the finished connections since the last start()
    text: string,           // what the open connection has delivered so far
    flushed: seq<string>,   // the lines that were merged into the buffer since the last start()
    staged: seq<string>,    // the lines staged since the last merge
    disowned: seq<string>)  // the lines that were staged when stop() threw them away

  datatype Event =
    | Start
    | Stop
    | FlushTimer
    | Connected(k: nat, hasBody: bool)
    | Chunk(k: nat, chunk: string)
    | StreamDone(k: nat)
    | Fails(k: nat, retry: bool, message: string)
    | WaitOver(k: nat)

  predicate Enabled(w: World, e: Event) {
    match e
    case Start => true
    case Stop => true
    case FlushTimer => w.view.timer.Some?
    case Connected(k, _) => k < |w.tasks| && w.tasks[k].phase.Connecting?
    case Chunk(k, _) => k < |w.tasks| && w.tasks[k].phase.Reading?
    case StreamDone(k) => k < |w.tasks| && w.tasks[k].phase.Reading?
    case Fails(k, _, _) => k < |w.tasks| && (w.tasks[k].phase.Connecting? || w.tasks[k].phase.Reading?)
    case WaitOver(k) => k < |w.tasks| && w.tasks[k].phase.Waiting?
  }

  predicate Stale(w: World, k: nat)
    requires k < |w.tasks|
  {
    w.tasks[k].gen != w.view.generation
  }

  function Goto(w: World, k: nat, phase: Phase): World
    requires k < |w.tasks|
  {
    w.(tasks := w.tasks[k := Task(w.tasks[k].gen, phase)])
  }

  function Stage(w: World, newLines: seq<string>): World {
    w.(view := Appended(w.view, newLines), staged := w.staged + newLines)
  }

  function Merge(w: World): World {
    w.(flushed := w.flushed + w.staged, staged := [])
  }

  function Close(w: World, cut: bool): World {
    w.(past := w.past + [Delivery(w.text, cut)], text := "")
  }

  /** The `finally` of a start() that still owns the stream. */
  function Finish(w: World, k: nat): World
    requires k < |w.tasks|
  {
    Goto(Merge(w.(view := Finished(w.view))), k, Done)
  }

  function Step(w: World, e: Event): World
    requires Enabled(w, e)
  {
    match e
    case Start =>
      var view := Started(w.view);
      World(view, w.tasks + [Task(view.generation, Connecting)], [], "", [], [], [])
    case Stop => w.(view := Stopped(w.view), staged := [], disowned := w.disowned + w.staged)
    case FlushTimer => Merge(w.(view := TimerFired(w.view)))
    case Connected(k, hasBody) =>
      if Stale(w, k) then Goto(w, k, Done)
      else
        var w1 := w.(view := w.view.(reconnecting := None));
        if hasBody then Goto(w1, k, Reading(""))
        else Finish(w1.(view := w1.view.(error := Some("Empty log stream."))), k)
    case Chunk(k, chunk) =>
      if Stale(w, k) then Goto(w, k, Done)
      else
        var buffer := w.tasks[k].phase.carry + chunk;
        Goto(Stage(w.(text := w.text + chunk), Complete(buffer)), k, Reading(Rest(buffer)))
    case StreamDone(k) =>
      if Stale(w, k) then Goto(w, k, Done)
      else
        var carry := w.tasks[k].phase.carry;
        Finish(Close(if carry != "" then Stage(w, [carry]) else w, false), k)
    case Fails(k, retry, message) =>
      if Stale(w, k) then Goto(w, k, Done)
      else if !retry then Finish(Close(w.(view := w.view.(error := Some(message))), true), k)
      else Goto(Merge(Close(w.(view := Flushed(w.view.(reconnecting := Some(message)))), true)), k, Waiting)
    case WaitOver(k) => if Stale(w, k) then Goto(w, k, Done) else Goto(w, k, Connecting)
  }

  predicate IsRun(w: World, es: seq<Event>)
    decreases |es|
  {
    es == [] || (Enabled(w, es[0]) && IsRun(Step(w, es[0]), es[1..]))
  }

  function Run(w: World, es: seq<Event>): World
    requires IsRun(w, es)
    decreases |es|
  {
    if es == [] then w else Run(Step(w, es[0]), es[1..])
  }

  const Idle: World :=
    World(View([], [], 0, 0, false, 0, None, false, None, None), [], [], "", [], [], [])

  // ---------------------------------------------------------------- tails

  lemma TailOfTails(a: seq<string>, b: seq<string>)
    ensures Tail(Tail(a) + b) == Tail(a + b)
    ensures Tail(a + Tail(b)) == Tail(a + b)
  {
    if Overflows(a) {
      DropAppend(a, b, |a| - MAX_LINES);
      TailOfDrop(a + b, |a| - MAX_LINES);
    }
    if Overflows(b) {
      TailOfEnd(a, b);
      TailOfEnd(a, Tail(b));
    }
  }

  lemma TailOfDrop(s: seq<string>, n: nat)
    requires n + MAX_LINES <= |s|
    ensures Tail(s[n..]) == Tail(s)
  {
  }

  lemma TailOfEnd(a: seq<string>, b: seq<string>)
    requires |b| >= MAX_LINES
    ensures Tail(a + b) == Tail(b)
  {
    assert (a + b)[|a|..] == b;
    TailOfDrop(a + b, |a|);
  }

  lemma DropAppend(a: seq<string>, b: seq<string>, n: nat)
    requires n <= |a|
    ensures a[n..] + b == (a + b)[n..]
  {
  }

  /** Staging overflows, or merging does, exactly when there are too many lines in all. */
  lemma OverflowsInAll(a: seq<string>, b: seq<string>)
    requires Tail(b) != []
    ensures (Overflows(a) || Overflows(b) || Overflows(Tail(a) + Tail(b))) <==> Overflows(a + b)
  {
  }

  // ---------------------------------------------------------------- the invariant

  /** The lines a connection contributes: all of them, or only the finished ones if it was cut. */
  function Shown(d: Delivery): seq<string> {
    if d.cut || Rest(d.text) == "" then Complete(d.text) else Complete(d.text) + [Rest(d.text)]
  }

  function AllShown(past: seq<Delivery>): seq<string> {
    if past == [] then [] else AllShown(past[..|past| - 1]) + Shown(past[|past| - 1])
  }

  /** The buffers hold the tails of what was merged and of what was staged, and every overflow was announced. */
  ghost predicate BufferInv(w: World) {
    && w.view.lines == Tail(w.flushed)
    && w.view.pending == Tail(w.staged)
    && (w.view.truncated <==> Overflows(w.flushed) || Overflows(w.staged) || Overflows(w.disowned))
  }

  /** Whatever is staged has a flush coming, and a flush timer always belongs to the current stream. */
  ghost predicate TimerInv(w: World) {
    && (w.view.pending != [] ==> w.view.timer.Some?)
    && (w.view.timer.Some? ==> w.view.timer.value == w.view.generation)
  }

  /** Only the start() begun last can own the stream, and it does so exactly while the stream is running. */
  ghost predicate Owners(tasks: seq<Task>, generation: nat, running: bool) {
    && (forall k | 0 <= k < |tasks| :: tasks[k].gen <= generation)
    && (forall k | 0 <= k < |tasks| - 1 :: tasks[k].gen < generation)
    && (running <==> tasks != [] && tasks[|tasks| - 1].gen == generation && !tasks[|tasks| - 1].phase.Done?)
  }

  ghost predicate OwnerInv(w: World) {
    Owners(w.tasks, w.view.generation, w.view.running)
  }

  function Last(w: World): Task
    requires w.tasks != []
  {
    w.tasks[|w.tasks| - 1]
  }

  /** A stream that was stopped has nothing staged, and only a stopped one had lines taken from it. */
  ghost predicate DisownedInv(w: World) {
    if Owned(w) then w.disowned == [] else w.staged == []
  }

  /** There was no stop() since the last start(). */
  ghost predicate Owned(w: World) {
    w.tasks != [] && Last(w).gen == w.view.generation
  }

  /** What the running start() carries over from chunk to chunk. */
  ghost predicate CarryInv(w: World) {
    Owned(w) ==> if Last(w).phase.Reading? then Last(w).phase.carry == Rest(w.text) else w.text == ""
  }

  /** Unless the stream was stopped, the lines staged are those of the text delivered. */
  ghost predicate TextInv(w: World) {
    Owned(w) ==> w.flushed + w.staged == AllShown(w.past) + Complete(w.text)
  }

  ghost predicate Inv(w: World) {
    BufferInv(w) && TimerInv(w) && OwnerInv(w) && DisownedInv(w) && CarryInv(w) && TextInv(w)
  }

  // ---------------------------------------------------------------- what each function keeps

  lemma OwnerMoves(tasks: seq<Task>, generation: nat, running: bool, k: nat, phase: Phase)
    requires Owners(tasks, generation, running) && k < |tasks|
    ensures tasks[k].gen == generation ==>
              && k == |tasks| - 1
              && Owners(tasks[k := Task(generation, phase)], generation, !phase.Done?)
    ensures tasks[k].gen != generation ==> Owners(tasks[k := Task(tasks[k].gen, phase)], generation, running)
  {
  }

  lemma OwnerStarts(tasks: seq<Task>, generation: nat, running: bool, t: Task)
    requires Owners(tasks, generation, running) && t.gen == generation + 1 && !t.phase.Done?
    ensures Owners(tasks + [t], generation + 1, true)
  {
  }

  lemma FlushKeepsBuffers(w: World, next: World)
    requires BufferInv(w) && TimerInv(w)
    requires next.view.lines == Flushed(w.view).lines && next.view.pending == [] && next.view.timer.None?
    requires next.view.truncated == Flushed(w.view).truncated
    requires next.flushed == w.flushed + w.staged && next.staged == [] && next.disowned == w.disowned
    ensures BufferInv(next) && TimerInv(next)
  {
    if w.view.pending == [] {
      assert w.staged == [];
    } else {
      TailOfTails(w.flushed, Tail(w.staged));
      TailOfTails(w.flushed, w.staged);
      OverflowsInAll(w.flushed, w.staged);
    }
  }

  lemma StageKeepsBuffers(w: World, newLines: seq<string>)
    requires BufferInv(w) && TimerInv(w)
    ensures BufferInv(Stage(w, newLines)) && TimerInv(Stage(w, newLines))
  {
    TailOfTails(w.staged, newLines);
    assert w.staged + [] == w.staged;
  }

  lemma AllShownSnoc(past: seq<Delivery>, d: Delivery)
    ensures AllShown(past + [d]) == AllShown(past) + Shown(d)
  {
    assert (past + [d])[..|past|] == past;
  }

  lemma Regroup(a: seq<string>, b: seq<string>, c: seq<string>, d: seq<string>, e: seq<string>)
    requires a + b == c + d
    ensures a + (b + e) == c + (d + e)
  {
    assert a + (b + e) == (a + b) + e;
  }

  /** A chunk of the stream that owns the buffers. */
  lemma ChunkKeepsInv(w: World, k: nat, chunk: string)
    requires Inv(w) && Enabled(w, Chunk(k, chunk)) && !Stale(w, k)
    ensures Inv(Step(w, Chunk(k, chunk)))
  {
    ChunkKeepsBuffers(w, k, chunk);
    ChunkKeepsText(w, k, chunk);
  }

  lemma ChunkKeepsBuffers(w: World, k: nat, chunk: string)
    requires Inv(w) && Enabled(w, Chunk(k, chunk)) && !Stale(w, k)
    ensures var next := Step(w, Chunk(k, chunk));
            BufferInv(next) && TimerInv(next) && OwnerInv(next) && DisownedInv(next)
  {
    var buffer := w.tasks[k].phase.carry + chunk;
    StageKeepsBuffers(w.(text := w.text + chunk), Complete(buffer));
    OwnerMoves(w.tasks, w.view.generation, w.view.running, k, Reading(Rest(buffer)));
  }

  lemma ChunkKeepsText(w: World, k: nat, chunk: string)
    requires OwnerInv(w) && CarryInv(w) && TextInv(w) && Enabled(w, Chunk(k, chunk)) && !Stale(w, k)
    ensures var next := Step(w, Chunk(k, chunk)); CarryInv(next) && TextInv(next)
  {
    OwnerMoves(w.tasks, w.view.generation, w.view.running, k, Done);
    var lines := Complete(w.tasks[k].phase.carry + chunk);
    MoreText(w.text, chunk);
    Regroup(w.flushed, w.staged, AllShown(w.past), Complete(w.text), lines);
  }

  lemma CloseShows(w: World, cut: bool)
    requires w.flushed + w.staged == AllShown(w.past) + Shown(Delivery(w.text, cut))
    ensures var closed := Close(w, cut); closed.flushed + closed.staged == AllShown(closed.past)
  {
    AllShownSnoc(w.past, Delivery(w.text, cut));
  }

  lemma DoneKeepsInv(w: World, k: nat)
    requires Inv(w) && Enabled(w, StreamDone(k)) && !Stale(w, k)
    ensures Inv(Step(w, StreamDone(k)))
  {
    OwnerMoves(w.tasks, w.view.generation, w.view.running, k, Done);
    var carry := w.tasks[k].phase.carry;
    LastLineStaged(w, carry);
    EndsWell(if carry != "" then Stage(w, [carry]) else w, k);
  }

  lemma EndsWell(w: World, k: nat)
    requires k < |w.tasks| && !Stale(w, k)
    requires BufferInv(w) && TimerInv(w) && OwnerInv(w) && DisownedInv(w)
    requires w.flushed + w.staged == AllShown(w.past) + Shown(Delivery(w.text, false))
    ensures Inv(Finish(Close(w, false), k))
  {
    CloseShows(w, false);
    FinishKeepsInv(Close(w, false), k);
  }

  /** With the unfinished line staged too, all of the connection's text is. */
  lemma LastLineStaged(w: World, carry: string)
    requires Inv(w) && Owned(w) && carry == Rest(w.text)
    ensures var w1 := if carry != "" then Stage(w, [carry]) else w;
            && BufferInv(w1) && TimerInv(w1) && OwnerInv(w1) && DisownedInv(w1)
            && w1.flushed + w1.staged == AllShown(w1.past) + Shown(Delivery(w1.text, false))
  {
    StageKeepsBuffers(w, [carry]);
    Regroup(w.flushed, w.staged, AllShown(w.past), Complete(w.text), [carry]);
  }

  /** What holds of a connection that was just closed is kept by finishing it. */
  lemma FinishKeepsInv(w: World, k: nat)
    requires k < |w.tasks| && !Stale(w, k)
    requires BufferInv(w) && TimerInv(w) && OwnerInv(w) && DisownedInv(w) && w.text == ""
    requires w.flushed + w.staged == AllShown(w.past)
    ensures Inv(Finish(w, k))
  {
    var next := Finish(w, k);
    FlushKeepsBuffers(w, next);
    Settle(next.flushed, AllShown(w.past));
    OwnerMoves(w.tasks, w.view.generation, w.view.running, k, Done);
  }

  lemma Settle(all: seq<string>, shown: seq<string>)
    requires all == shown
    ensures all + [] == shown + Complete("")
  {
  }

  lemma FailsKeepsInv(w: World, k: nat, retry: bool, message: string)
    requires Inv(w) && Enabled(w, Fails(k, retry, message)) && !Stale(w, k)
    ensures Inv(Step(w, Fails(k, retry, message)))
  {
    if retry {
      RetryKeepsInv(w, k, message);
    } else {
      GivingUpKeepsInv(w, k, message);
    }
  }

  lemma GivingUpKeepsInv(w: World, k: nat, message: string)
    requires Inv(w) && Enabled(w, Fails(k, false, message)) && !Stale(w, k)
    ensures Inv(Step(w, Fails(k, false, message)))
  {
    var failed := w.(view := w.view.(error := Some(message)));
    OwnerMoves(w.tasks, w.view.generation, w.view.running, k, Waiting);
    CloseShows(failed, true);
    FinishKeepsInv(Close(failed, true), k);
  }

  lemma RetryKeepsInv(w: World, k: nat, message: string)
    requires Inv(w) && Enabled(w, Fails(k, true, message)) && !Stale(w, k)
    ensures Inv(Step(w, Fails(k, true, message)))
  {
    OwnerMoves(w.tasks, w.view.generation, w.view.running, k, Waiting);
    CloseShows(w, true);
    var next := Step(w, Fails(k, true, message));
    FlushKeepsBuffers(w, next);
    Settle(next.flushed, AllShown(next.past));
  }

  lemma ConnectedKeepsInv(w: World, k: nat, hasBody: bool)
    requires Inv(w) && Enabled(w, Connected(k, hasBody)) && !Stale(w, k)
    ensures Inv(Step(w, Connected(k, hasBody)))
  {
    var w1 := w.(view := w.view.(reconnecting := None));
    if !hasBody {
      Settle(AllShown(w.past), AllShown(w.past));
      FinishKeepsInv(w1.(view := w1.view.(error := Some("Empty log stream."))), k);
    } else {
      OwnerMoves(w.tasks, w.view.generation, w.view.running, k, Reading(""));
    }
  }

  /** A superseded start() only ends. */
  lemma StaleKeepsInv(w: World, k: nat)
    requires Inv(w) && k < |w.tasks| && Stale(w, k)
    ensures Inv(Goto(w, k, Done))
  {
    OwnerMoves(w.tasks, w.view.generation, w.view.running, k, Done);
    assert k == |w.tasks| - 1 || Last(Goto(w, k, Done)) == Last(w);
  }

  lemma StartKeepsInv(w: World)
    requires Inv(w)
    ensures Inv(Step(w, Start))
  {
    OwnerStarts(w.tasks, w.view.generation, w.view.running, Task(w.view.generation + 1, Connecting));
  }

  lemma StopKeepsInv(w: World)
    requires Inv(w)
    ensures Inv(Step(w, Stop))
  {
    assert [] + w.staged == w.staged && w.disowned + [] == w.disowned;
  }

  lemma TimerKeepsInv(w: World)
    requires Inv(w) && Enabled(w, FlushTimer)
    ensures Inv(Step(w, FlushTimer))
  {
    var next := Step(w, FlushTimer);
    FlushKeepsBuffers(w, next);
    assert next.flushed + next.staged == w.flushed + w.staged;
  }

  lemma StepKeepsInv(w: World, e: Event)
    requires Inv(w) && Enabled(w, e)
    ensures Inv(Step(w, e))
  {
    match e
    case Start => StartKeepsInv(w);
    case Stop => StopKeepsInv(w);
    case FlushTimer => TimerKeepsInv(w);
    case Connected(k, hasBody) => if Stale(w, k) { StaleKeepsInv(w, k); } else { ConnectedKeepsInv(w, k, hasBody); }
    case Chunk(k, chunk) => if Stale(w, k) { StaleKeepsInv(w, k); } else { ChunkKeepsInv(w, k, chunk); }
    case StreamDone(k) => if Stale(w, k) { StaleKeepsInv(w, k); } else { DoneKeepsInv(w, k); }
    case Fails(k, retry, message) =>
      if Stale(w, k) { StaleKeepsInv(w, k); } else { FailsKeepsInv(w, k, retry, message); }
    case WaitOver(k) =>
      if Stale(w, k) {
        StaleKeepsInv(w, k);
      } else {
        OwnerMoves(w.tasks, w.view.generation, w.view.running, k, Connecting);
      }
  }

  lemma {:induction false} RunKeepsInv(w: World, es: seq<Event>)
    requires Inv(w) && IsRun(w, es)
    ensures Inv(Run(w, es))
    decreases |es|
  {
    if es != [] {
      StepKeepsInv(w, es[0]);
      RunKeepsInv(Step(w, es[0]), es[1..]);
    }
  }

  // ---------------------------------------------------------------- main results

  /**
   Whenever nothing is waiting to be merged, and so after every flush, the buffer is exactly the tail of all lines
   staged since start(), and `truncated` says whether that is less than all of them.
   */
  lemma BufferIsTheTail(es: seq<Event>)
    requires IsRun(Idle, es)
    ensures var w := Run(Idle, es);
            Owned(w) && w.view.pending == [] ==>
              && w.view.lines == Tail(w.flushed + w.staged)
              && (w.view.truncated <==> |w.flushed + w.staged| > MAX_LINES)
  {
    RunKeepsInv(Idle, es);
    HoldsTheTail(Run(Idle, es));
  }

  lemma HoldsTheTail(w: World)
    requires Inv(w)
    ensures Owned(w) && w.view.pending == [] ==>
              && w.view.lines == Tail(w.flushed + w.staged)
              && (w.view.truncated <==> |w.flushed + w.staged| > MAX_LINES)
  {
    if w.view.pending == [] {
      assert w.staged == [] && w.flushed + w.staged == w.flushed;
    }
  }

  /**
   ... and those lines are the lines of the text the stream's connections delivered, however it was cut into chunks:
   a connection that failed contributes its finished lines, one that ended also its last unfinished one.
   */
  lemma BufferShowsTheText(es: seq<Event>)
    requires IsRun(Idle, es)
    ensures var w := Run(Idle, es);
            Owned(w) && w.view.pending == [] ==> w.view.lines == Tail(AllShown(w.past) + Complete(w.text))
    ensures var w := Run(Idle, es);
            Owned(w) && !w.view.running ==> w.view.pending == [] && w.view.lines == Tail(AllShown(w.past))
  {
    RunKeepsInv(Idle, es);
    RunFinishes(Idle, es);
    var w := Run(Idle, es);
    HoldsTheTail(w);
    if Owned(w) && !w.view.running {
      EndsWithTheText(w);
    }
  }

  lemma EndsWithTheText(w: World)
    requires Inv(w) && FinishedInv(w) && Owned(w) && !w.view.running
    ensures w.view.pending == [] && w.text == "" && AllShown(w.past) + Complete(w.text) == AllShown(w.past)
  {
  }

  /** A stream that stopped running by itself has flushed everything. */
  ghost predicate FinishedInv(w: World) {
    !w.view.running ==> w.view.pending == []
  }

  lemma {:induction false} RunFinishes(w: World, es: seq<Event>)
    requires Inv(w) && FinishedInv(w) && IsRun(w, es)
    ensures FinishedInv(Run(w, es))
    decreases |es|
  {
    if es != [] {
      StepKeepsInv(w, es[0]);
      StepFinishes(w, es[0]);
      RunFinishes(Step(w, es[0]), es[1..]);
    }
  }

  lemma StepFinishes(w: World, e: Event)
    requires Inv(w) && FinishedInv(w) && Enabled(w, e)
    ensures FinishedInv(Step(w, e))
  {
    match e
    case Start =>
    case Stop =>
    case FlushTimer =>
    case Connected(k, hasBody) =>
    case Chunk(k, chunk) =>
      if !Stale(w, k) {
        OwnerMoves(w.tasks, w.view.generation, w.view.running, k, w.tasks[k].phase);
      }
    case StreamDone(k) => DoneLeavesNothing(w, k);
    case Fails(k, retry, message) =>
    case WaitOver(k) =>
  }

  lemma DoneLeavesNothing(w: World, k: nat)
    requires FinishedInv(w) && Enabled(w, StreamDone(k))
    ensures FinishedInv(Step(w, StreamDone(k)))
  {
    if !Stale(w, k) {
      FlushEmpties(Step(w, StreamDone(k)).view);
    }
  }

  lemma FlushEmpties(v: View)
    ensures Flushed(v).pending == []
  {
  }

  /** A start() that was superseded once never touches what the user sees again. */
  lemma {:induction false} SupersededNeverWrites(w: World, es: seq<Event>, k: nat, e: Event)
    requires k < |w.tasks| && w.tasks[k].gen < w.view.generation
    requires IsRun(w, es) && Enabled(Run(w, es), e)
    requires !e.Start? && !e.Stop? && !e.FlushTimer? && e.k == k
    ensures k < |Run(w, es).tasks| && Step(Run(w, es), e).view == Run(w, es).view
    decreases |es|
  {
    if es != [] {
      SupersededNeverWrites(Step(w, es[0]), es[1..], k, e);
    }
  }

  /**
   What the user is told. A start clears the buffer and all messages; a connection ends "reconnecting"; one without a
   body, and a failure that is not retried, end the stream with an error; one that is retried says so and shows what was
   staged; a clean end and stop() end the stream without an error. Nothing else, and no superseded call, changes any of
   it.
   */
  lemma StatusExactly(w: World, e: Event)
    requires Enabled(w, e)
    ensures var was, now := w.view, Step(w, e).view;
            if e.Start? then now.running && now.error == None && now.reconnecting == None && now.lines == []
            else if e.Stop? then !now.running && now.error == was.error && now.reconnecting == None
            else if e.FlushTimer? || Stale(w, e.k) || e.Chunk? || e.WaitOver? then
              now.running == was.running && now.error == was.error && now.reconnecting == was.reconnecting
            else if e.StreamDone? then !now.running && now.error == was.error && now.reconnecting == None
            else if e.Connected? then
              if e.hasBody then now.running == was.running && now.error == was.error && now.reconnecting == None
              else !now.running && now.error == Some("Empty log stream.") && now.reconnecting == None
            else if e.retry then
              && now.running == was.running && now.error == was.error && now.reconnecting == Some(e.message)
              && now.pending == []
            else !now.running && now.error == Some(e.message) && now.reconnecting == None
  {
  }

  /** The version stays only if the visible lines, and their numbers, do. */
  predicate Tells(was: View, now: View) {
    was.version <= now.version && (now.version == was.version ==> now.lines == was.lines && now.dropped == was.dropped)
  }

  lemma FlushTells(v: View)
    ensures Tells(v, Flushed(v)) && (Flushed(v).version > v.version <==> v.pending != [])
  {
  }

  /** Whoever watches the version sees every change; a restart is one, and empties the buffer. */
  lemma VersionTells(w: World, e: Event)
    requires Enabled(w, e)
    ensures Tells(w.view, Step(w, e).view)
    ensures e.Start? ==>
              var now := Step(w, e).view; now.version == w.view.version + 1 && now.lines == [] && now.dropped == 0
  {
    match e
    case Connected(k, hasBody) => ConnectedTells(w, k, hasBody);
    case StreamDone(k) => DoneTells(w, k);
    case Fails(k, retry, message) => FailsTells(w, k, retry, message);
    case FlushTimer => FlushTells(w.view.(timer := None));
    case _ =>
  }

  lemma ConnectedTells(w: World, k: nat, hasBody: bool)
    requires Enabled(w, Connected(k, hasBody))
    ensures Tells(w.view, Step(w, Connected(k, hasBody)).view)
  {
    FlushTells(w.view.(reconnecting := None, error := Some("Empty log stream.")));
  }

  lemma DoneTells(w: World, k: nat)
    requires Enabled(w, StreamDone(k))
    ensures Tells(w.view, Step(w, StreamDone(k)).view)
  {
    var carry := w.tasks[k].phase.carry;
    FlushTells(if carry != "" then Appended(w.view, [carry]) else w.view);
  }

  lemma FailsTells(w: World, k: nat, retry: bool, message: string)
    requires Enabled(w, Fails(k, retry, message))
    ensures Tells(w.view, Step(w, Fails(k, retry, message)).view)
  {
    FlushTells(w.view.(error := Some(message)));
    FlushTells(w.view.(reconnecting := Some(message)));
  }

  /** No staged line is stranded: a flush is on its way, for the stream that staged it. */
  lemma StagedLinesWillFlush(es: seq<Event>)
    requires IsRun(Idle, es)
    ensures var w := Run(Idle, es);
            w.view.pending != [] ==> Enabled(w, FlushTimer) && Step(w, FlushTimer).view.pending == []
  {
    RunKeepsInv(Idle, es);
  }

  /**
   What a merge looks like to someone holding line numbers: some lines left at the head, as many as `dropped` grew,
   and the staged ones came in at the end.
   */
  lemma FlushShifts(v: View)
    requires |v.lines| <= MAX_LINES && |v.pending| <= MAX_LINES
    ensures var next := Flushed(v);
            && v.dropped <= next.dropped <= v.dropped + |v.lines|
            && next.lines == v.lines[next.dropped - v.dropped..] + v.pending
  {
  }

  // ---------------------------------------------------------------- the composable, in place

  /** An array the stream appends to and drops the head of, without ever replacing it. */
  class LineBuffer {
    var items: seq<string>

    constructor ()
      ensures items == []
    {
      items := [];
    }

    method Push(line: string)
      modifies this
      ensures items == old(items) + [line]
    {
      items := items + [line];
    }

    /** splice(0, count). */
    method DropHead(count: nat)
      requires count <= |items|
      modifies this
      ensures items == old(items)[count..]
    {
      items := items[count..];
    }
  }

  class Stream {
    var lines: LineBuffer
    var pending: LineBuffer
    var dropped: nat
    var version: nat
    var truncated: bool
    var generation: nat
    var timer: Option<nat>
    var running: bool
    var error: Option<string>
    var reconnecting: Option<string>

    ghost function AsView(): View
      reads this, lines, pending
    {
      View(lines.items, pending.items, dropped, version, truncated, generation, timer, running, error, reconnecting)
    }

    ghost predicate Valid()
      reads this, lines, pending
    {
      lines != pending && |lines.items| <= MAX_LINES && |pending.items| <= MAX_LINES
    }

    constructor ()
      ensures Valid() && fresh(lines) && fresh(pending) && AsView() == Idle.view
    {
      lines := new LineBuffer();
      pending := new LineBuffer();
      dropped, version, truncated, generation := 0, 0, false, 0;
      timer, running, error, reconnecting := None, false, None, None;
    }

    method Trim(buffer: LineBuffer)
      modifies this`truncated, buffer
      ensures buffer.items == Tail(old(buffer.items))
      ensures truncated == (old(truncated) || Overflows(old(buffer.items)))
    {
      if |buffer.items| <= MAX_LINES {
        return;
      }
      truncated := true;
      buffer.DropHead(|buffer.items| - MAX_LINES);
    }

    /** Merges the staged lines into the very buffer everyone holds. */
    method Flush()
      requires Valid()
      modifies this, lines
      ensures Valid() && lines == old(lines) && AsView() == Flushed(old(AsView()))
      ensures pending == old(pending) || fresh(pending)
    {
      timer := None;
      if |pending.items| == 0 {
        return;
      }
      var buffer := lines;
      var staged := pending.items;
      for i := 0 to |staged|
        modifies buffer
        invariant buffer.items == old(lines.items) + staged[..i]
      {
        buffer.Push(staged[i]);
        assert old(lines.items) + staged[..i] + [staged[i]] == old(lines.items) + staged[..i + 1];
      }
      assert staged[..|staged|] == staged;
      pending := new LineBuffer();
      var before := |buffer.items|;
      Trim(buffer);
      dropped := dropped + before - |buffer.items|;
      version := version + 1;
    }

    method Append(newLines: seq<string>)
      requires Valid()
      modifies this, pending
      ensures Valid() && lines == old(lines) && pending == old(pending) && AsView() == Appended(old(AsView()), newLines)
    {
      if |newLines| == 0 {
        return;
      }
      for i := 0 to |newLines|
        modifies pending
        invariant pending.items == old(pending.items) + newLines[..i]
      {
        pending.Push(newLines[i]);
        assert old(pending.items) + newLines[..i] + [newLines[i]] == old(pending.items) + newLines[..i + 1];
      }
      assert newLines[..|newLines|] == newLines;
      Trim(pending);
      if timer.Some? {
        return;
      }
      timer := Some(generation);
    }

    /** The flush timer's callback. */
    method OnTimer()
      requires Valid() && timer.Some?
      modifies this, lines
      ensures Valid() && lines == old(lines) && AsView() == TimerFired(old(AsView()))
      ensures pending == old(pending) || fresh(pending)
    {
      var gen := timer.value;
      timer := None;
      if gen == generation {
        Flush();
      }
    }

    /** A read of some connection resolved; only the current stream's chunk is staged. */
    method Received(gen: nat, carry: string, chunk: string) returns (aborted: bool, buffer: string)
      requires Valid()
      modifies this, pending
      ensures Valid() && lines == old(lines) && pending == old(pending)
      ensures aborted == (gen != generation)
      ensures aborted ==> AsView() == old(AsView())
      ensures !aborted ==> AsView() == Appended(old(AsView()), Complete(carry + chunk)) && buffer == Rest(carry + chunk)
    {
      aborted, buffer := gen != generation, carry;
      if aborted {
        return;
      }
      buffer := buffer + chunk;
      var parts := Parts(buffer);
      buffer := parts[|parts| - 1];
      Append(parts[..|parts| - 1]);
    }

    method Stop()
      requires Valid()
      modifies this
      ensures Valid() && lines == old(lines) && fresh(pending) && AsView() == Stopped(old(AsView()))
    {
      generation := generation + 1;
      pending := new LineBuffer();
      timer := None;
      running := false;
      reconnecting := None;
    }

    /** What start() does before it awaits its first connection: a new, empty buffer. */
    method Start() returns (gen: nat)
      requires Valid()
      modifies this
      ensures Valid() && fresh(lines) && fresh(pending) && gen == generation && AsView() == Started(old(AsView()))
    {
      Stop();
      gen := generation;
      lines := new LineBuffer();
      dropped := 0;
      version := version + 1;
      error := None;
      reconnecting := None;
      truncated := false;
      running := true;
    }

    /** The `finally` of start(). */
    method Finish(gen: nat)
      requires Valid()
      modifies this, lines
      ensures Valid() && lines == old(lines)
      ensures AsView() == if gen == old(generation) then Finished(old(AsView())) else old(AsView())
    {
      if gen == generation {
        Flush();
        running := false;
        reconnecting := None;
      }
    }
  }
}
