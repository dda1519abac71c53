/**
 One exec connection of internal/exec/session.go as a transition system.

 Every goroutine is a program counter and every event is one atomic step of one
 goroutine (or of a timer, or of the browser), so a list of events is one
 interleaving. `ending` is the compare-and-swap flag; `claim` only remembers who set it.
 */
module ExecSession {

  import opened Wrappers

  datatype Claimant = Nobody | Handshake | Main | ByTask(n: nat) | Ping

  /** Why the terminal closes: the messages the source sends, by their cause. */
  datatype Reason = Refusal | TimedOut | Overflowed | StreamFailed

  datatype Frame = Ready | Exit(code: Option<int>) | Error(why: Reason) {
    predicate Terminal() { Exit? || Error? }
  }

  /** How the exec stream returns: without an error, with the command's exit code, with any other error. */
  datatype Outcome = Clean | ExitCode(code: int) | Failed

  /** A call of writeControl: it queues on the write lock, holds it, then is done. */
  datatype WriterPc = Queued | Holding | Done(ok: bool)
  datatype Writer = Writer(from: Claimant, frame: Frame, pc: WriterPc)

  /** The stages of reportAndEnd: the select, then the two effects of end(). */
  datatype Stage = Waiting | Storing | Cancelling | Ended

  /** An idle callback, or the overflow callback: try to claim, report, end. */
  datatype Kind = IdleDeadline | StdinOverflow
  datatype Task = Entering(kind: Kind) | Lost(kind: Kind) | Claimed(kind: Kind)
                | Reporting(kind: Kind, w: nat, expired: bool, stage: Stage)

  datatype MainPc =
    | Authenticating
    | Refusing(w: nat)
    | Refused
    | SendingReady(w: nat)
    | Awaiting
    | Draining
    | DrainCancelled
    | Claiming(outcome: Outcome)
    | MainClaimed(outcome: Outcome)
    | MainReporting(w: nat)
    | Leaving
    | IdleStopped
    | Returned

  datatype ReaderPc = Unstarted | Reading | Overflowing(n: nat) | Gone
  datatype PingPc = PingUnstarted | Pinging | PingFailed | PingStoring | PingCancelling | PingExited
  datatype StreamPc = StreamUnstarted | Running | Finished(outcome: Outcome) | Delivered
  datatype Lock = Free | Stdout | Control(w: nat)

  datatype State = State(
    main: MainPc,
    tasks: seq<Task>,     // one entry per fired idle deadline (re-fires included) and per refused stdin frame
    reader: ReaderPc,
    ping: PingPc,
    stream: StreamPc,
    lock: Lock,
    writers: seq<Writer>, // every control frame ever attempted
    wire: seq<Frame>,     // the control frames that reached the socket
    ending: bool,
    claim: Claimant,
    quiet: bool,
    cancelled: bool,
    armed: bool,          // the idle timer
    clientGone: bool)

  const Init := State(Authenticating, [], Unstarted, PingUnstarted, StreamUnstarted, Free,
                      [], [], false, Nobody, false, false, false, false)

  datatype Event =
    | MainStep
    | HandshakeFails
    | MainSeesClientGone
    | DrainExpires
    | TimerFires
    | Activity
    | ReaderFails
    | StdinOverflows
    | ReaderLeaves
    | TaskStep(n: nat)
    | FrameTimerFires(n: nat)
    | PingTickFails
    | PingStops
    | PingStep
    | StreamReturns(outcome: Outcome)
    | StdoutLocks
    | StdoutWrites(ok: bool)
    | WriterLocks(w: nat)
    | WriterWrites(w: nat, ok: bool)

  // ---------------------------------------------------------------- steps

  function Attempt(s: State, from: Claimant, frame: Frame): State {
    s.(writers := s.writers + [Writer(from, frame, Queued)])
  }

  predicate WriterDone(s: State, w: nat) {
    w < |s.writers| && s.writers[w].pc.Done?
  }

  function OutcomeFrame(o: Outcome): Frame {
    match o
    case Clean => Exit(None)
    case ExitCode(code) => Exit(Some(code))
    case Failed => Error(StreamFailed)
  }

  function ReasonOf(kind: Kind): Reason {
    match kind
    case IdleDeadline => TimedOut
    case StdinOverflow => Overflowed
  }

  function NextMain(s: State): Option<State> {
    match s.main
    case Authenticating =>
      // Promoted: the idle timer, the read loop and the ping loop start, then "ready" is written.
      Some(Attempt(s, Nobody, Ready).(main := SendingReady(|s.writers|), armed := true, reader := Reading,
          ping := Pinging))
    case Refusing(w) =>
      if WriterDone(s, w) then Some(s.(main := Refused)) else None
    case Refused => None
    case SendingReady(w) =>
      if !WriterDone(s, w) then None
      else if s.writers[w].pc.ok then Some(s.(main := Awaiting, stream := Running))
      else Some(s.(main := Leaving))
    case Awaiting =>
      if s.stream.Finished? then Some(s.(main := Claiming(s.stream.outcome), stream := Delivered)) else None
    case Draining =>
      if s.stream.Finished? then Some(s.(main := Claiming(s.stream.outcome), stream := Delivered)) else None
    case DrainCancelled =>
      if s.stream.Finished? then Some(s.(main := Claiming(s.stream.outcome), stream := Delivered)) else None
    case Claiming(o) =>
      if s.ending then Some(s.(main := Leaving))
      else Some(s.(main := MainClaimed(o), ending := true, claim := Main))
    case MainClaimed(o) =>
      Some(Attempt(s, Main, OutcomeFrame(o)).(main := MainReporting(|s.writers|)))
    case MainReporting(w) =>
      if WriterDone(s, w) then Some(s.(main := Leaving)) else None
    case Leaving => Some(s.(main := IdleStopped, armed := false))
    case IdleStopped => Some(s.(main := Returned, cancelled := true))
    case Returned => None
  }

  /** idleFired / overflow, then reportAndEnd, then end(). */
  function NextTask(s: State, n: nat): Option<State>
    requires n < |s.tasks|
  {
    var t := s.tasks[n];
    match t
    case Lost(_) => None
    case Entering(kind) =>
      if s.ending then Some(s.(tasks := s.tasks[n := Lost(kind)]))
      else Some(s.(tasks := s.tasks[n := Claimed(kind)], ending := true, claim := ByTask(n)))
    case Claimed(kind) =>
      Some(Attempt(s, ByTask(n), Error(ReasonOf(kind)))
           .(tasks := s.tasks[n := Reporting(kind, |s.writers|, false, Waiting)]))
    case Reporting(_, w, expired, Waiting) =>
      if expired || WriterDone(s, w) then Some(s.(tasks := s.tasks[n := t.(stage := Storing)])) else None
    case Reporting(_, _, _, Storing) =>
      Some(s.(tasks := s.tasks[n := t.(stage := Cancelling)], ending := true, quiet := true))
    case Reporting(_, _, _, Cancelling) =>
      Some(s.(tasks := s.tasks[n := t.(stage := Ended)], cancelled := true))
    case Reporting(_, _, _, Ended) => None
  }

  /** pingLoop: its end() stores `ending` without a compare-and-swap. */
  function NextPing(s: State): Option<State> {
    match s.ping
    case PingFailed => Some(s.(ping := if s.clientGone then PingExited else PingStoring))
    case PingStoring =>
      Some(s.(ping := PingCancelling, ending := true, quiet := true,
          claim := if s.claim.Nobody? then Ping else s.claim))
    case PingCancelling => Some(s.(ping := PingExited, cancelled := true))
    case PingUnstarted => None
    case Pinging => None
    case PingExited => None
  }

  predicate TaskOver(t: Task) {
    t.Lost? || (t.Reporting? && t.stage.Ended?)
  }

  function NextWriter(s: State, e: Event): Option<State>
    requires e.WriterLocks? || e.WriterWrites?
  {
    if e.w >= |s.writers| then None
    else
      var writer := s.writers[e.w];
      if e.WriterLocks? then
        if writer.pc.Queued? && s.lock.Free?
        then Some(s.(writers := s.writers[e.w := writer.(pc := Holding)], lock := Control(e.w)))
        else None
      else
        if writer.pc.Holding?
        then Some(s.(writers := s.writers[e.w := writer.(pc := Done(e.ok))], lock := Free,
                     wire := if e.ok then s.wire + [writer.frame] else s.wire))
        else None
  }

  /** The state after one event, None when the event cannot happen (the goroutine is blocked or elsewhere). */
  function Next(s: State, e: Event): Option<State> {
    match e
    case MainStep => NextMain(s)
    case HandshakeFails =>
      if s.main.Authenticating?
      then Some(Attempt(s, Handshake, Error(Refusal)).(main := Refusing(|s.writers|)))
      else None
    case MainSeesClientGone =>
      if s.main.Awaiting? && s.clientGone then Some(s.(main := Draining, quiet := true)) else None
    case DrainExpires =>
      if s.main.Draining? then Some(s.(main := DrainCancelled, cancelled := true)) else None
    case TimerFires =>
      if s.armed then Some(s.(armed := false, tasks := s.tasks + [Entering(IdleDeadline)])) else None
    case Activity =>
      if s.reader.Reading? then Some(s.(armed := true)) else None
    case ReaderFails =>
      if s.reader.Reading? then Some(s.(reader := Gone, clientGone := true)) else None
    case StdinOverflows =>
      if s.reader.Reading?
      then Some(s.(reader := Overflowing(|s.tasks|), tasks := s.tasks + [Entering(StdinOverflow)]))
      else None
    case ReaderLeaves =>
      if s.reader.Overflowing? && s.reader.n < |s.tasks| && TaskOver(s.tasks[s.reader.n])
      then Some(s.(reader := Gone, clientGone := true))
      else None
    case TaskStep(n) =>
      if n < |s.tasks| then NextTask(s, n) else None
    case FrameTimerFires(n) =>
      if n < |s.tasks| && s.tasks[n].Reporting? && s.tasks[n].stage.Waiting?
      then Some(s.(tasks := s.tasks[n := s.tasks[n].(expired := true)]))
      else None
    case PingTickFails =>
      if s.ping.Pinging? then Some(s.(ping := PingFailed)) else None
    case PingStops =>
      if s.ping.Pinging? && (s.cancelled || s.clientGone) then Some(s.(ping := PingExited)) else None
    case PingStep => NextPing(s)
    case StreamReturns(o) =>
      if s.stream.Running? then Some(s.(stream := Finished(o))) else None
    case StdoutLocks =>
      if !s.stream.StreamUnstarted? && s.lock.Free? then Some(s.(lock := Stdout)) else None
    case StdoutWrites(ok) =>
      if s.lock.Stdout? then Some(s.(lock := Free, armed := s.armed || ok)) else None
    case WriterLocks(_) => NextWriter(s, e)
    case WriterWrites(_, _) => NextWriter(s, e)
  }

  /** One interleaving: the state it ends in, None when some event was not possible. */
  function Run(s: State, es: seq<Event>): Option<State>
    decreases |es|
  {
    if es == [] then Some(s)
    else
      var next := Next(s, es[0]);
      if next.None? then None else Run(next.value, es[1..])
  }

  // ---------------------------------------------------------------- invariant

  function TerminalAttempts(writers: seq<Writer>): nat {
    if writers == [] then 0
    else TerminalAttempts(writers[..|writers| - 1]) + if writers[|writers| - 1].frame.Terminal() then 1 else 0
  }

  /** Terminal frames that were written to the socket, counted over the attempts. */
  function TerminalWritten(writers: seq<Writer>): nat {
    if writers == [] then 0
    else
      var last := writers[|writers| - 1];
      TerminalWritten(writers[..|writers| - 1]) + if last.frame.Terminal() && last.pc == Done(true) then 1 else 0
  }

  function TerminalFrames(wire: seq<Frame>): nat {
    if wire == [] then 0
    else TerminalFrames(wire[..|wire| - 1]) + if wire[|wire| - 1].Terminal() then 1 else 0
  }

  predicate Started(s: State) {
    !s.main.Authenticating? && !s.main.Refusing? && !s.main.Refused?
  }

  predicate TaskHasClaim(t: Task) {
    t.Claimed? || t.Reporting?
  }

  /** Has whoever owns the teardown already called writeControl? */
  predicate Announced(s: State) {
    match s.claim
    case Main => !s.main.MainClaimed?
    case ByTask(n) => n < |s.tasks| && s.tasks[n].Reporting?
    case _ => false
  }

  ghost predicate FlagInv(s: State) {
    && (s.ending <==> s.claim != Nobody)
    && s.claim != Handshake
    && (s.ending ==> Started(s))
    && (s.main.MainClaimed? || s.main.MainReporting? ==> s.claim == Main)
    && (s.claim.Main? ==>
          s.main.MainClaimed? || s.main.MainReporting? || s.main.Leaving? || s.main.IdleStopped? || s.main.Returned?)
    && (s.claim.ByTask? ==> s.claim.n < |s.tasks|)
    && (!Started(s) ==>
          s.tasks == [] && s.reader.Unstarted? && s.ping.PingUnstarted? && !s.armed && !s.lock.Stdout? &&
          s.stream.StreamUnstarted?)
    && (s.main.Authenticating? ==> s.writers == [])
  }

  /** What holds of task n, in terms of who owns the teardown. */
  ghost predicate TaskInv(s: State, n: nat, t: Task) {
    && (s.claim == ByTask(n) <==> TaskHasClaim(t))
    && (t.Reporting? ==> ReportInv(s, t))
  }

  ghost predicate ReportInv(s: State, t: Task)
    requires t.Reporting?
  {
    && t.w < |s.writers| && s.writers[t.w].frame.Terminal()
    && (t.stage.Waiting? || t.expired || s.writers[t.w].pc.Done?)
    && (t.stage.Cancelling? || t.stage.Ended? ==> s.quiet)
    && (t.stage.Ended? ==> s.cancelled)
  }

  ghost predicate TasksInv(s: State) {
    forall n: nat | n < |s.tasks| :: TaskInv(s, n, s.tasks[n])
  }

  ghost predicate WriterInv(s: State, w: nat, writer: Writer) {
    && (writer.pc.Holding? <==> s.lock == Control(w))
    && (writer.frame.Terminal() ==> writer.from != Nobody && writer.from == if Started(s) then s.claim else Handshake)
    && (writer.frame.Exit? ==> writer.from == Main)
  }

  ghost predicate WritersInv(s: State) {
    && (forall w: nat | w < |s.writers| :: WriterInv(s, w, s.writers[w]))
    && (s.lock.Control? ==> s.lock.w < |s.writers|)
  }

  /** The number of terminal frames attempted is known exactly in every state. */
  ghost predicate CountInv(s: State) {
    && TerminalFrames(s.wire) == TerminalWritten(s.writers)
    && TerminalAttempts(s.writers) == (
          if Started(s) then (if Announced(s) then 1 else 0)
          else if s.main.Authenticating? then 0 else 1)
  }

  ghost predicate Inv(s: State) {
    FlagInv(s) && TasksInv(s) && WritersInv(s) && CountInv(s)
  }

  // ---------------------------------------------------------------- counting

  lemma CountAppend(writers: seq<Writer>, w: Writer)
    requires !w.pc.Done?
    ensures TerminalAttempts(writers + [w]) == TerminalAttempts(writers) + if w.frame.Terminal() then 1 else 0
    ensures TerminalWritten(writers + [w]) == TerminalWritten(writers)
  {
    assert (writers + [w])[..|writers|] == writers;
  }

  /** Moving a writer on changes no attempt; it adds to the frames written when it finishes well. */
  lemma {:induction false} CountUpdate(writers: seq<Writer>, w: nat, pc: WriterPc)
    requires w < |writers| && writers[w].pc != Done(true)
    ensures TerminalAttempts(writers[w := writers[w].(pc := pc)]) == TerminalAttempts(writers)
    ensures TerminalWritten(writers[w := writers[w].(pc := pc)])
         == TerminalWritten(writers) + if writers[w].frame.Terminal() && pc == Done(true) then 1 else 0
  {
    var last := |writers| - 1;
    var updated := writers[w := writers[w].(pc := pc)];
    if w == last {
      assert updated[..last] == writers[..last];
    } else {
      CountUpdate(writers[..last], w, pc);
      assert updated[..last] == writers[..last][w := writers[..last][w].(pc := pc)];
    }
  }

  lemma {:induction false} WrittenAtMostAttempted(writers: seq<Writer>)
    ensures TerminalWritten(writers) <= TerminalAttempts(writers)
  {
    if writers != [] {
      WrittenAtMostAttempted(writers[..|writers| - 1]);
    }
  }

  // ---------------------------------------------------------------- every step keeps the invariant

  /** A step that attempts no frame, and touches neither the claim nor a started task. */
  lemma FrameKeepsInv(s: State, next: State)
    requires Inv(s) && FlagInv(next)
    requires Started(next) == Started(s) && next.main.Authenticating? == s.main.Authenticating?
    requires next.main.MainClaimed? == s.main.MainClaimed?
    requires next.claim == s.claim && next.writers == s.writers && next.wire == s.wire
    requires next.lock == s.lock || (!s.lock.Control? && !next.lock.Control?)
    requires (s.quiet ==> next.quiet) && (s.cancelled ==> next.cancelled)
    requires next.tasks == s.tasks || exists kind :: next.tasks == s.tasks + [Entering(kind)]
    ensures Inv(next)
  {
    forall n: nat | n < |next.tasks| ensures TaskInv(next, n, next.tasks[n]) {
      assert n < |s.tasks| ==> TaskInv(s, n, s.tasks[n]);
    }
    forall w: nat | w < |next.writers| ensures WriterInv(next, w, next.writers[w]) {
      assert w < |s.writers| ==> WriterInv(s, w, s.writers[w]);
    }
  }

  /** A step that takes the claim nobody had; only its taker's program counter moves. */
  lemma ClaimKeepsInv(s: State, next: State)
    requires Inv(s) && FlagInv(next) && Started(s) && Started(next)
    requires s.claim.Nobody? && (next.claim.Main? || next.claim.Ping?)
    requires next.claim.Main? ==> next.main.MainClaimed?
    requires next.tasks == s.tasks && next.writers == s.writers && next.wire == s.wire && next.lock == s.lock
    requires (s.quiet ==> next.quiet) && (s.cancelled ==> next.cancelled)
    ensures Inv(next)
  {
    forall n: nat | n < |next.tasks| ensures TaskInv(next, n, next.tasks[n]) {
      assert n < |s.tasks| ==> TaskInv(s, n, s.tasks[n]);
    }
    forall w: nat | w < |next.writers| ensures WriterInv(next, w, next.writers[w]) {
      assert w < |s.writers| ==> WriterInv(s, w, s.writers[w]);
    }
  }

  /** A step that attempts one frame, which its claim entitles it to. */
  lemma AttemptKeepsInv(s: State, next: State, writer: Writer)
    requires Inv(s) && FlagInv(next) && writer.pc.Queued?
    requires next.claim == s.claim && next.tasks == s.tasks && next.writers == s.writers + [writer]
    requires next.wire == s.wire && next.lock == s.lock && next.quiet == s.quiet && next.cancelled == s.cancelled
    requires Started(s) ==> Started(next)
    requires !Started(s) ==> s.main.Authenticating?
    requires if writer.frame.Terminal()
             then if Started(s)
                  then writer.from.Main? && s.claim.Main? && s.main.MainClaimed? && !next.main.MainClaimed?
                  else writer.from.Handshake? && writer.frame.Error? && next.main.Refusing?
             else Started(next) && s.claim.Nobody?
    ensures Inv(next)
  {
    CountAppend(s.writers, writer);
    forall n: nat | n < |next.tasks| ensures TaskInv(next, n, next.tasks[n]) {
      assert n < |s.tasks| ==> TaskInv(s, n, s.tasks[n]);
    }
    forall w: nat | w < |next.writers| ensures WriterInv(next, w, next.writers[w]) {
      assert w < |s.writers| ==> WriterInv(s, w, s.writers[w]);
    }
  }

  /** A step of task n that neither claims nor attempts. */
  lemma TaskMoveKeepsInv(s: State, next: State, n: nat, t: Task)
    requires Inv(s) && n < |s.tasks|
    requires next == s.(tasks := s.tasks[n := t], ending := next.ending, quiet := next.quiet,
        cancelled := next.cancelled)
    requires FlagInv(next) && (s.quiet ==> next.quiet) && (s.cancelled ==> next.cancelled)
    requires TaskHasClaim(t) == TaskHasClaim(s.tasks[n]) && t.Reporting? == s.tasks[n].Reporting?
    requires t.Reporting? ==> ReportInv(next, t)
    ensures Inv(next)
  {
    forall m: nat | m < |next.tasks| ensures TaskInv(next, m, next.tasks[m]) {
      assert TaskInv(s, m, s.tasks[m]);
    }
    forall w: nat | w < |next.writers| ensures WriterInv(next, w, next.writers[w]) {
      assert w < |s.writers| ==> WriterInv(s, w, s.writers[w]);
    }
  }

  lemma TaskClaims(s: State, n: nat)
    requires Inv(s) && n < |s.tasks| && s.tasks[n].Entering? && !s.ending
    ensures Inv(NextTask(s, n).value)
  {
    var next := NextTask(s, n).value;
    forall m: nat | m < |next.tasks| ensures TaskInv(next, m, next.tasks[m]) {
      assert TaskInv(s, m, s.tasks[m]);
    }
    forall w: nat | w < |next.writers| ensures WriterInv(next, w, next.writers[w]) {
      assert w < |s.writers| ==> WriterInv(s, w, s.writers[w]);
    }
  }

  lemma TaskReports(s: State, next: State, n: nat, t: Task, writer: Writer)
    requires Inv(s) && n < |s.tasks| && s.tasks[n].Claimed?
    requires writer == Writer(ByTask(n), Error(ReasonOf(s.tasks[n].kind)), Queued)
    requires t.Reporting? && t.w == |s.writers| && t.stage.Waiting?
    requires next == s.(tasks := s.tasks[n := t], writers := s.writers + [writer])
    ensures Inv(next)
  {
    assert TaskInv(s, n, s.tasks[n]);
    CountAppend(s.writers, writer);
    forall m: nat | m < |next.tasks| ensures TaskInv(next, m, next.tasks[m]) {
      assert TaskInv(s, m, s.tasks[m]);
    }
    forall w: nat | w < |next.writers| ensures WriterInv(next, w, next.writers[w]) {
      assert w < |s.writers| ==> WriterInv(s, w, s.writers[w]);
    }
  }

  lemma TaskKeepsInv(s: State, n: nat)
    requires Inv(s) && n < |s.tasks| && NextTask(s, n).Some?
    ensures Inv(NextTask(s, n).value)
  {
    assert TaskInv(s, n, s.tasks[n]);
    if s.tasks[n].Claimed? {
      var next := NextTask(s, n).value;
      TaskReports(s, next, n, next.tasks[n], Writer(ByTask(n), Error(ReasonOf(s.tasks[n].kind)), Queued));
    } else if s.tasks[n].Entering? && !s.ending {
      TaskClaims(s, n);
    } else {
      var next := NextTask(s, n).value;
      TaskMoveKeepsInv(s, next, n, next.tasks[n]);
    }
  }

  lemma MainRefuses(s: State)
    requires Inv(s) && s.main.Refusing? && NextMain(s).Some?
    ensures Inv(NextMain(s).value)
  {
    FrameKeepsInv(s, NextMain(s).value);
  }

  lemma MainReadies(s: State)
    requires Inv(s) && s.main.SendingReady? && NextMain(s).Some?
    ensures Inv(NextMain(s).value)
  {
    var w := s.main.w;
    if s.writers[w].pc.ok {
      MainStreams(s, s.(main := Awaiting, stream := Running));
    } else {
      MainGivesUp(s, s.(main := Leaving));
    }
  }

  lemma MainStreams(s: State, next: State)
    requires Inv(s) && s.main.SendingReady? && next == s.(main := Awaiting, stream := Running)
    ensures Inv(next)
  {
    FrameKeepsInv(s, next);
  }

  lemma MainGivesUp(s: State, next: State)
    requires Inv(s) && s.main.SendingReady? && next == s.(main := Leaving)
    ensures Inv(next)
  {
    FrameKeepsInv(s, next);
  }

  lemma MainReports(s: State)
    requires Inv(s) && s.main.MainReporting? && NextMain(s).Some?
    ensures Inv(NextMain(s).value)
  {
    FrameKeepsInv(s, NextMain(s).value);
  }

  lemma MainLeaves(s: State)
    requires Inv(s) && (s.main.Leaving? || s.main.IdleStopped?)
    ensures Inv(NextMain(s).value)
  {
    FrameKeepsInv(s, NextMain(s).value);
  }

  lemma MainWaits(s: State)
    requires Inv(s) && (s.main.Awaiting? || s.main.Draining? || s.main.DrainCancelled?) && NextMain(s).Some?
    ensures Inv(NextMain(s).value)
  {
    FrameKeepsInv(s, NextMain(s).value);
  }

  lemma MainKeepsInv(s: State)
    requires Inv(s) && NextMain(s).Some?
    ensures Inv(NextMain(s).value)
  {
    match s.main
    case Authenticating => AttemptKeepsInv(s, NextMain(s).value, Writer(Nobody, Ready, Queued));
    case MainClaimed(o) => AttemptKeepsInv(s, NextMain(s).value, Writer(Main, OutcomeFrame(o), Queued));
    case Claiming(_) => MainClaims(s);
    case Awaiting => MainWaits(s);
    case Draining => MainWaits(s);
    case DrainCancelled => MainWaits(s);
    case Leaving => MainLeaves(s);
    case IdleStopped => MainLeaves(s);
    case Refusing(_) => MainRefuses(s);
    case SendingReady(_) => MainReadies(s);
    case MainReporting(_) => MainReports(s);
  }

  lemma MainClaims(s: State)
    requires Inv(s) && s.main.Claiming?
    ensures Inv(NextMain(s).value)
  {
    if s.ending {
      FrameKeepsInv(s, NextMain(s).value);
    } else {
      ClaimKeepsInv(s, NextMain(s).value);
    }
  }

  lemma PingKeepsInv(s: State)
    requires Inv(s) && NextPing(s).Some?
    ensures Inv(NextPing(s).value)
  {
    if s.ping.PingStoring? {
      PingStores(s);
    } else {
      FrameKeepsInv(s, NextPing(s).value);
    }
  }

  lemma PingStores(s: State)
    requires Inv(s) && s.ping.PingStoring?
    ensures Inv(NextPing(s).value)
  {
    if s.claim.Nobody? {
      ClaimKeepsInv(s, NextPing(s).value);
    } else {
      FrameKeepsInv(s, NextPing(s).value);
    }
  }

  /** A writer moves on, never back from having finished. */
  lemma WriterKeepsTasksInv(s: State, next: State, w: nat, pc: WriterPc)
    requires TasksInv(s) && w < |s.writers| && (s.writers[w].pc.Done? ==> pc.Done?)
    requires next == s.(writers := s.writers[w := s.writers[w].(pc := pc)], lock := next.lock, wire := next.wire)
    ensures TasksInv(next)
  {
    forall n: nat | n < |next.tasks| ensures TaskInv(next, n, next.tasks[n]) {
      assert TaskInv(s, n, s.tasks[n]);
    }
  }

  lemma WriterKeepsWritersInv(s: State, next: State, w: nat, pc: WriterPc)
    requires WritersInv(s) && w < |s.writers|
    requires next == s.(writers := s.writers[w := s.writers[w].(pc := pc)], lock := next.lock, wire := next.wire)
    requires if pc.Holding? then s.lock.Free? && next.lock == Control(w) else s.lock == Control(w) && next.lock.Free?
    ensures WritersInv(next)
  {
    forall v: nat | v < |next.writers| ensures WriterInv(next, v, next.writers[v]) {
      assert WriterInv(s, v, s.writers[v]);
    }
  }

  lemma WriterKeepsInv(s: State, e: Event)
    requires Inv(s) && (e.WriterLocks? || e.WriterWrites?) && NextWriter(s, e).Some?
    ensures Inv(NextWriter(s, e).value)
  {
    assert WriterInv(s, e.w, s.writers[e.w]);
    if e.WriterLocks? {
      WriterMoves(s, NextWriter(s, e).value, e.w, Holding);
    } else {
      WriterMoves(s, NextWriter(s, e).value, e.w, Done(e.ok));
    }
  }

  lemma WriterMoves(s: State, next: State, w: nat, pc: WriterPc)
    requires Inv(s) && w < |s.writers| && !s.writers[w].pc.Done? && !pc.Queued?
    requires next == s.(writers := s.writers[w := s.writers[w].(pc := pc)], lock := next.lock, wire := next.wire)
    requires if pc.Holding? then s.lock.Free? && next.lock == Control(w) else s.lock == Control(w) && next.lock.Free?
    requires next.wire == if pc == Done(true) then s.wire + [s.writers[w].frame] else s.wire
    ensures Inv(next)
  {
    CountUpdate(s.writers, w, pc);
    WriterKeepsTasksInv(s, next, w, pc);
    WriterKeepsWritersInv(s, next, w, pc);
    if pc == Done(true) {
      FramesPlus(s.wire, s.writers[w].frame);
    }
  }

  lemma FramesPlus(wire: seq<Frame>, frame: Frame)
    ensures TerminalFrames(wire + [frame]) == TerminalFrames(wire) + if frame.Terminal() then 1 else 0
  {
    assert (wire + [frame])[..|wire|] == wire;
  }

  lemma ReaderKeepsInv(s: State, e: Event)
    requires Inv(s) && Next(s, e).Some?
    requires e.TimerFires? || e.Activity? || e.ReaderFails? || e.StdinOverflows? || e.ReaderLeaves?
    ensures Inv(Next(s, e).value)
  {
    FrameKeepsInv(s, Next(s, e).value);
  }

  lemma EnvironmentKeepsInv(s: State, e: Event)
    requires Inv(s) && Next(s, e).Some?
    requires e.MainSeesClientGone? || e.DrainExpires? || e.PingTickFails? || e.PingStops?
          || e.StreamReturns? || e.StdoutLocks? || e.StdoutWrites?
    ensures Inv(Next(s, e).value)
  {
    FrameKeepsInv(s, Next(s, e).value);
  }

  lemma StepKeepsInv(s: State, e: Event)
    requires Inv(s) && Next(s, e).Some?
    ensures Inv(Next(s, e).value)
  {
    match e
    case MainStep => MainKeepsInv(s);
    case TaskStep(n) => TaskKeepsInv(s, n);
    case PingStep => PingKeepsInv(s);
    case WriterLocks(_) => WriterKeepsInv(s, e);
    case WriterWrites(_, _) => WriterKeepsInv(s, e);
    case HandshakeFails => AttemptKeepsInv(s, Next(s, e).value, Writer(Handshake, Error(Refusal), Queued));
    case FrameTimerFires(n) =>
      assert TaskInv(s, n, s.tasks[n]);
      TaskMoveKeepsInv(s, Next(s, e).value, n, s.tasks[n].(expired := true));
    case TimerFires => ReaderKeepsInv(s, e);
    case Activity => ReaderKeepsInv(s, e);
    case ReaderFails => ReaderKeepsInv(s, e);
    case StdinOverflows => ReaderKeepsInv(s, e);
    case ReaderLeaves => ReaderKeepsInv(s, e);
    case _ => EnvironmentKeepsInv(s, e);
  }

  lemma {:induction false} RunKeepsInv(s: State, es: seq<Event>)
    requires Inv(s) && Run(s, es).Some?
    ensures Inv(Run(s, es).value)
    decreases |es|
  {
    if es != [] {
      StepKeepsInv(s, es[0]);
      RunKeepsInv(Next(s, es[0]).value, es[1..]);
    }
  }

  // ---------------------------------------------------------------- safety over every interleaving

  /**
   A connection attempts at most one terminal frame, and an exit frame only after the stream-end path won the claim.
   */
  lemma AtMostOneTerminalFrame(es: seq<Event>)
    requires Run(Init, es).Some?
    ensures var s := Run(Init, es).value;
            && TerminalFrames(s.wire) <= TerminalAttempts(s.writers) <= 1
            && (forall w | 0 <= w < |s.writers| && s.writers[w].frame.Exit? :: s.writers[w].from == s.claim == Main)
            && (forall v, w | 0 <= v < |s.writers| && 0 <= w < |s.writers| ::
                  s.writers[v].frame.Terminal() && s.writers[w].frame.Terminal() ==> v == w)
  {
    RunKeepsInv(Init, es);
    var s := Run(Init, es).value;
    WrittenAtMostAttempted(s.writers);
    forall w | 0 <= w < |s.writers| && s.writers[w].frame.Exit? ensures s.writers[w].from == s.claim == Main {
      assert WriterInv(s, w, s.writers[w]);
    }
    forall v, w | 0 <= v < |s.writers| && 0 <= w < |s.writers| &&
                  s.writers[v].frame.Terminal() && s.writers[w].frame.Terminal()
      ensures v == w
    {
      if v < w {
        TwoAttempts(s.writers, v, w);
      } else if w < v {
        TwoAttempts(s.writers, w, v);
      }
    }
  }

  lemma {:induction false} OneAttempt(writers: seq<Writer>, v: nat)
    requires v < |writers| && writers[v].frame.Terminal()
    ensures TerminalAttempts(writers) >= 1
  {
    if v < |writers| - 1 {
      OneAttempt(writers[..|writers| - 1], v);
    }
  }

  /** With one attempt in all, what was written is decided by that one. */
  lemma {:induction false} OneWritten(writers: seq<Writer>, w: nat)
    requires w < |writers| && writers[w].frame.Terminal() && TerminalAttempts(writers) == 1
    ensures TerminalWritten(writers) == if writers[w].pc == Done(true) then 1 else 0
  {
    var last := |writers| - 1;
    WrittenAtMostAttempted(writers[..last]);
    if w < last {
      OneAttempt(writers[..last], w);
      OneWritten(writers[..last], w);
    }
  }

  lemma {:induction false} TwoAttempts(writers: seq<Writer>, v: nat, w: nat)
    requires v < w < |writers| && writers[v].frame.Terminal() && writers[w].frame.Terminal()
    ensures TerminalAttempts(writers) >= 2
  {
    if w < |writers| - 1 {
      TwoAttempts(writers[..|writers| - 1], v, w);
    } else {
      OneAttempt(writers[..|writers| - 1], v);
    }
  }

  /**
   At most one goroutine ever wins a compare-and-swap on the flag: of all callbacks one, and then not main, before or
   after; whatever terminal frame there is is the winner's.
   */
  lemma OneWinner(es: seq<Event>, m: nat, n: nat)
    requires Run(Init, es).Some? && m < |Run(Init, es).value.tasks| && n < |Run(Init, es).value.tasks|
    requires TaskHasClaim(Run(Init, es).value.tasks[m])
    ensures var s := Run(Init, es).value;
            && s.ending && s.claim == ByTask(m) && !s.main.MainClaimed? && !s.main.MainReporting?
            && (TaskHasClaim(s.tasks[n]) ==> m == n)
            && (forall w | 0 <= w < |s.writers| && s.writers[w].frame.Terminal() :: s.writers[w].from == ByTask(m))
  {
    RunKeepsInv(Init, es);
    var s := Run(Init, es).value;
    assert TaskInv(s, m, s.tasks[m]) && TaskInv(s, n, s.tasks[n]);
    forall w | 0 <= w < |s.writers| && s.writers[w].frame.Terminal() ensures s.writers[w].from == ByTask(m) {
      assert WriterInv(s, w, s.writers[w]);
    }
  }

  /**
   The flag is never reset, whatever pingLoop's plain store does. Every other taker tests it first, so the history
   variable that remembers the first taker stays what it is.
   */
  lemma {:induction false} ClaimIsForever(s: State, es: seq<Event>)
    requires Inv(s) && s.claim != Nobody && Run(s, es).Some?
    ensures Run(s, es).value.claim == s.claim && Run(s, es).value.ending
    decreases |es|
  {
    if es != [] {
      StepKeepsInv(s, es[0]);
      ClaimStep(s, es[0]);
      ClaimIsForever(Next(s, es[0]).value, es[1..]);
    }
  }

  lemma ClaimStep(s: State, e: Event)
    requires Inv(s) && s.claim != Nobody && Next(s, e).Some?
    ensures Next(s, e).value.claim == s.claim
  {
    match e
    case MainStep => MainKeepsClaim(s);
    case TaskStep(n) => TaskKeepsClaim(s, n);
    case PingStep =>
    case WriterLocks(_) => WriterKeepsClaim(s, e);
    case WriterWrites(_, _) => WriterKeepsClaim(s, e);
    case _ =>
  }

  lemma MainKeepsClaim(s: State)
    requires FlagInv(s) && s.claim != Nobody && NextMain(s).Some?
    ensures NextMain(s).value.claim == s.claim
  {
  }

  lemma TaskKeepsClaim(s: State, n: nat)
    requires FlagInv(s) && s.claim != Nobody && n < |s.tasks| && NextTask(s, n).Some?
    ensures NextTask(s, n).value.claim == s.claim
  {
  }

  lemma WriterKeepsClaim(s: State, e: Event)
    requires (e.WriterLocks? || e.WriterWrites?) && NextWriter(s, e).Some?
    ensures NextWriter(s, e).value.claim == s.claim
  {
  }

  /** A teardown that pingLoop began says nothing: no terminal frame is attempted, before or after. */
  lemma PingEndsInSilence(es: seq<Event>, more: seq<Event>)
    requires Run(Init, es).Some? && Run(Init, es).value.claim == Ping
    requires Run(Run(Init, es).value, more).Some?
    ensures TerminalAttempts(Run(Run(Init, es).value, more).value.writers) == 0
  {
    RunKeepsInv(Init, es);
    var s := Run(Init, es).value;
    ClaimIsForever(s, more);
    RunKeepsInv(s, more);
  }

  /**
   Main loses the claim: has whoever won it at least set out to tell the browser why? Exactly if the winner is an idle
   or overflow callback that has called writeControl already. It has not if the winner is pingLoop, which never will,
   or a callback between its compare-and-swap and its frame; main closes the socket all the same.
   */
  lemma LoserWasTold(es: seq<Event>)
    requires Run(Init, es).Some? && Run(Init, es).value.main.Claiming? && Run(Init, es).value.ending
    ensures var s := Run(Init, es).value;
            && (TerminalAttempts(s.writers) == 1 <==>
                  s.claim.ByTask? && s.claim.n < |s.tasks| && s.tasks[s.claim.n].Reporting?)
            && (TerminalAttempts(s.writers) == 0 <==>
                  s.claim.Ping? || (s.claim.ByTask? && s.claim.n < |s.tasks| && s.tasks[s.claim.n].Claimed?))
  {
    RunKeepsInv(Init, es);
    var s := Run(Init, es).value;
    if s.claim.ByTask? {
      assert TaskInv(s, s.claim.n, s.tasks[s.claim.n]);
    }
  }

  /**
   And has the browser been told? Exactly if the winner is a callback whose frame was written. Besides the two cases
   above it was not if the frame is still queued on the write lock or being written, or if the write failed; the
   callback may have given up on it when its timer expired, and ended the session without.
   */
  lemma BrowserWasTold(es: seq<Event>)
    requires Run(Init, es).Some? && Run(Init, es).value.main.Claiming? && Run(Init, es).value.ending
    ensures var s := Run(Init, es).value;
            && (TerminalFrames(s.wire) == 1 <==>
                  && s.claim.ByTask? && s.claim.n < |s.tasks| && s.tasks[s.claim.n].Reporting?
                  && s.tasks[s.claim.n].w < |s.writers| && s.writers[s.tasks[s.claim.n].w].pc == Done(true))
            && TerminalFrames(s.wire) <= 1
  {
    RunKeepsInv(Init, es);
    var s := Run(Init, es).value;
    WrittenAtMostAttempted(s.writers);
    if s.claim.ByTask? {
      var t := s.tasks[s.claim.n];
      assert TaskInv(s, s.claim.n, t);
      if t.Reporting? {
        OneWritten(s.writers, t.w);
      }
    }
  }

  // ---------------------------------------------------------------- what the frames say

  /** How the stream returned, read off the events. */
  function Outcomes(es: seq<Event>): seq<Outcome>
    decreases |es|
  {
    if es == [] then []
    else if es[0].StreamReturns? then [es[0].outcome] + Outcomes(es[1..]) else Outcomes(es[1..])
  }

  /** The frame says how the stream returned. */
  predicate SaysOutcome(frame: Frame, o: Outcome) {
    && (frame == Exit(None) <==> o == Clean)
    && (frame.Exit? && frame.code.Some? <==> o.ExitCode?)
    && (frame.Exit? && frame.code.Some? && o.ExitCode? ==> frame.code.value == o.code)
    && (frame == Error(StreamFailed) <==> o == Failed)
  }

  /** Every frame says what its sender has to say; `returned` is how the stream returned, if it has. */
  ghost predicate Tells(tasks: seq<Task>, returned: seq<Outcome>, writer: Writer) {
    match writer.from
    case Nobody => writer.frame == Ready
    case Handshake => writer.frame == Error(Refusal)
    case Main => |returned| == 1 && SaysOutcome(writer.frame, returned[0])
    case ByTask(n) =>
      && n < |tasks|
      && (writer.frame == Error(TimedOut) <==> tasks[n].kind == IdleDeadline)
      && (writer.frame == Error(Overflowed) <==> tasks[n].kind == StdinOverflow)
    case Ping => false
  }

  ghost predicate TellInv(s: State, returned: seq<Outcome>) {
    && (s.main.SendingReady? || !Started(s) ==> s.stream.StreamUnstarted?)
    && (s.stream.StreamUnstarted? || s.stream.Running? ==> returned == [])
    && (s.stream.Finished? ==> returned == [s.stream.outcome])
    && (s.main.Claiming? || s.main.MainClaimed? ==> s.stream.Delivered? && returned == [s.main.outcome])
    && (s.main.MainReporting? ==> s.main.w < |s.writers| && s.writers[s.main.w].from == Main)
    && (s.main.SendingReady? || s.main.Refusing? ==> s.main.w < |s.writers|)
    && (AwaitsStream(s.main) ==> s.stream.Running? || s.stream.Finished?)
    && (forall w: nat | w < |s.writers| :: Tells(s.tasks, returned, s.writers[w]))
    && (forall frame | frame in s.wire :: Sent(s.writers, frame))
  }

  predicate AwaitsStream(pc: MainPc) {
    pc.Awaiting? || pc.Draining? || pc.DrainCancelled?
  }

  ghost predicate Sent(writers: seq<Writer>, frame: Frame) {
    exists w :: 0 <= w < |writers| && writers[w].frame == frame && writers[w].pc == Done(true)
  }

  /** The tasks there are go on being of their kind. */
  ghost predicate KindsStay(tasks: seq<Task>, next: seq<Task>) {
    |tasks| <= |next| && forall n | 0 <= n < |tasks| :: next[n].kind == tasks[n].kind
  }

  lemma TellsOn(s: State, next: State, returned: seq<Outcome>, more: seq<Outcome>)
    requires TellInv(s, returned) && KindsStay(s.tasks, next.tasks)
    requires next.writers == s.writers && next.wire == s.wire
    requires more == returned || (returned == [] && s.stream.Running?)
    requires next.main.SendingReady? || !Started(next) ==> next.stream.StreamUnstarted?
    requires next.stream.StreamUnstarted? || next.stream.Running? ==> more == []
    requires next.stream.Finished? ==> more == [next.stream.outcome]
    requires next.main.Claiming? || next.main.MainClaimed? ==> next.stream.Delivered? && more == [next.main.outcome]
    requires next.main.MainReporting? || next.main.SendingReady? || next.main.Refusing? ==> next.main == s.main
    requires AwaitsStream(next.main) ==> next.stream.Running? || next.stream.Finished?
    ensures TellInv(next, more)
  {
    forall w: nat | w < |next.writers| ensures Tells(next.tasks, more, next.writers[w]) {
      assert Tells(s.tasks, returned, s.writers[w]);
    }
  }

  lemma TellsMore(s: State, next: State, returned: seq<Outcome>, writer: Writer)
    requires TellInv(s, returned) && KindsStay(s.tasks, next.tasks) && Tells(next.tasks, returned, writer)
    requires next.writers == s.writers + [writer] && next.wire == s.wire && next.stream == s.stream
    requires next.main.SendingReady? || !Started(next) ==> next.main == s.main || !Started(s)
    requires next.main.Claiming? || next.main.MainClaimed? || AwaitsStream(next.main) ==> next.main == s.main
    requires next.main.SendingReady? || next.main.Refusing? ==> next.main == s.main || next.main.w == |s.writers|
    requires next.main.MainReporting? ==>
               next.main == s.main || (next.main.w == |s.writers| && writer.from == Main)
    ensures TellInv(next, returned)
  {
    forall w: nat | w < |next.writers| ensures Tells(next.tasks, returned, next.writers[w]) {
      assert w < |s.writers| ==> Tells(s.tasks, returned, s.writers[w]);
    }
    forall frame | frame in next.wire ensures Sent(next.writers, frame) {
      assert Sent(s.writers, frame);
      var w :| 0 <= w < |s.writers| && s.writers[w].frame == frame && s.writers[w].pc == Done(true);
      assert next.writers[w] == s.writers[w];
    }
  }

  lemma WriterTells(s: State, e: Event, returned: seq<Outcome>)
    requires TellInv(s, returned) && (e.WriterLocks? || e.WriterWrites?) && NextWriter(s, e).Some?
    ensures TellInv(NextWriter(s, e).value, returned)
  {
    var next := NextWriter(s, e).value;
    forall w: nat | w < |next.writers| ensures Tells(next.tasks, returned, next.writers[w]) {
      assert Tells(s.tasks, returned, s.writers[w]);
    }
    forall frame | frame in next.wire ensures Sent(next.writers, frame) {
      if frame in s.wire {
        var w :| 0 <= w < |s.writers| && s.writers[w].frame == frame && s.writers[w].pc == Done(true);
        assert next.writers[w] == s.writers[w];
      } else {
        assert next.writers[e.w].frame == frame;
      }
    }
  }

  lemma MainSpeaks(s: State, returned: seq<Outcome>)
    requires TellInv(s, returned) && s.main.MainClaimed?
    ensures TellInv(NextMain(s).value, returned)
  {
    var writer := Writer(Main, OutcomeFrame(s.main.outcome), Queued);
    assert returned == [s.main.outcome] && SaysOutcome(writer.frame, returned[0]);
    TellsMore(s, NextMain(s).value, returned, writer);
  }

  lemma MainReadiesTells(s: State, returned: seq<Outcome>)
    requires TellInv(s, returned) && s.main.SendingReady? && NextMain(s).Some?
    ensures TellInv(NextMain(s).value, returned)
  {
    if s.writers[s.main.w].pc.ok {
      TellsOn(s, s.(main := Awaiting, stream := Running), returned, returned);
    } else {
      TellsOn(s, s.(main := Leaving), returned, returned);
    }
  }

  lemma MainHears(s: State, returned: seq<Outcome>)
    requires TellInv(s, returned) && (s.main.Awaiting? || s.main.Draining? || s.main.DrainCancelled?)
    requires s.stream.Finished?
    ensures TellInv(s.(main := Claiming(s.stream.outcome), stream := Delivered), returned)
  {
    TellsOn(s, s.(main := Claiming(s.stream.outcome), stream := Delivered), returned, returned);
  }

  lemma MainDecides(s: State, returned: seq<Outcome>)
    requires TellInv(s, returned) && s.main.Claiming?
    ensures TellInv(NextMain(s).value, returned)
  {
    if s.ending {
      TellsOn(s, s.(main := Leaving), returned, returned);
    } else {
      TellsOn(s, s.(main := MainClaimed(s.main.outcome), ending := true, claim := Main), returned, returned);
    }
  }

  lemma MainEnds(s: State, returned: seq<Outcome>)
    requires TellInv(s, returned) && (s.main.Refusing? || s.main.MainReporting?) && NextMain(s).Some?
    ensures TellInv(NextMain(s).value, returned)
  {
    TellsOn(s, s.(main := if s.main.Refusing? then Refused else Leaving), returned, returned);
  }

  lemma MainTells(s: State, returned: seq<Outcome>)
    requires TellInv(s, returned) && NextMain(s).Some?
    ensures TellInv(NextMain(s).value, returned)
  {
    match s.main
    case Authenticating => TellsMore(s, NextMain(s).value, returned, Writer(Nobody, Ready, Queued));
    case Refusing(_) => MainEnds(s, returned);
    case SendingReady(_) => MainReadiesTells(s, returned);
    case Awaiting => MainHears(s, returned);
    case Draining => MainHears(s, returned);
    case DrainCancelled => MainHears(s, returned);
    case Claiming(_) => MainDecides(s, returned);
    case MainClaimed(_) => MainSpeaks(s, returned);
    case MainReporting(_) => MainEnds(s, returned);
    case Leaving => TellsOn(s, s.(main := IdleStopped, armed := false), returned, returned);
    case IdleStopped => TellsOn(s, s.(main := Returned, cancelled := true), returned, returned);
  }

  lemma TaskKindsStay(s: State, n: nat)
    requires n < |s.tasks| && NextTask(s, n).Some?
    ensures KindsStay(s.tasks, NextTask(s, n).value.tasks)
  {
    var t := NextTask(s, n).value.tasks[n];
    assert t.kind == s.tasks[n].kind;
    KindStays(s.tasks, n, t);
  }

  lemma KindStays(tasks: seq<Task>, n: nat, t: Task)
    requires n < |tasks| && t.kind == tasks[n].kind
    ensures KindsStay(tasks, tasks[n := t])
  {
  }

  lemma TaskSpeaks(s: State, n: nat, returned: seq<Outcome>)
    requires TellInv(s, returned) && n < |s.tasks| && s.tasks[n].Claimed?
    ensures TellInv(NextTask(s, n).value, returned)
  {
    var next := NextTask(s, n).value;
    var writer := Writer(ByTask(n), Error(ReasonOf(s.tasks[n].kind)), Queued);
    TaskKindsStay(s, n);
    assert next.writers == s.writers + [writer] && Tells(next.tasks, returned, writer);
    TellsMore(s, next, returned, writer);
  }

  lemma TaskTells(s: State, n: nat, returned: seq<Outcome>)
    requires TellInv(s, returned) && n < |s.tasks| && NextTask(s, n).Some?
    ensures TellInv(NextTask(s, n).value, returned)
  {
    if s.tasks[n].Claimed? {
      TaskSpeaks(s, n, returned);
    } else {
      TaskKindsStay(s, n);
      TaskTouchesOnly(s, n);
      TellsOn(s, NextTask(s, n).value, returned, returned);
    }
  }

  lemma TaskTouchesOnly(s: State, n: nat)
    requires n < |s.tasks| && !s.tasks[n].Claimed? && NextTask(s, n).Some?
    ensures var next := NextTask(s, n).value;
            next.writers == s.writers && next.wire == s.wire && next.main == s.main && next.stream == s.stream
  {
  }

  /** A step of the environment that reaches neither main nor the frames, and may start one task. */
  lemma BackgroundTells(s: State, next: State, returned: seq<Outcome>)
    requires TellInv(s, returned) && next.main == s.main && next.stream == s.stream
    requires next.writers == s.writers && next.wire == s.wire
    requires next.tasks == s.tasks || exists kind :: next.tasks == s.tasks + [Entering(kind)]
    ensures TellInv(next, returned)
  {
    TellsOn(s, next, returned, returned);
  }

  lemma ReaderTells(s: State, e: Event, returned: seq<Outcome>)
    requires TellInv(s, returned) && Next(s, e).Some?
    requires e.TimerFires? || e.Activity? || e.ReaderFails? || e.StdinOverflows? || e.ReaderLeaves?
    ensures TellInv(Next(s, e).value, returned)
  {
    BackgroundTells(s, Next(s, e).value, returned);
  }

  lemma ConnectionTells(s: State, e: Event, returned: seq<Outcome>)
    requires TellInv(s, returned) && Next(s, e).Some?
    requires e.PingTickFails? || e.PingStops? || e.PingStep? || e.StdoutLocks? || e.StdoutWrites?
    ensures TellInv(Next(s, e).value, returned)
  {
    if e.PingStep? {
      PingTells(s, returned);
    } else {
      BackgroundTells(s, Next(s, e).value, returned);
    }
  }

  lemma PingTells(s: State, returned: seq<Outcome>)
    requires TellInv(s, returned) && NextPing(s).Some?
    ensures TellInv(NextPing(s).value, returned)
  {
    BackgroundTells(s, NextPing(s).value, returned);
  }

  lemma HandshakeTells(s: State, returned: seq<Outcome>)
    requires TellInv(s, returned) && s.main.Authenticating?
    ensures TellInv(Next(s, HandshakeFails).value, returned)
  {
    TellsMore(s, Next(s, HandshakeFails).value, returned, Writer(Handshake, Error(Refusal), Queued));
  }

  lemma StreamTells(s: State, o: Outcome, returned: seq<Outcome>)
    requires TellInv(s, returned) && s.stream.Running?
    ensures TellInv(s.(stream := Finished(o)), returned + [o])
  {
    assert returned + [o] == [o];
    TellsOn(s, s.(stream := Finished(o)), [], [o]);
  }

  lemma DrainTells(s: State, e: Event, returned: seq<Outcome>)
    requires TellInv(s, returned) && (e.MainSeesClientGone? || e.DrainExpires?) && Next(s, e).Some?
    ensures TellInv(Next(s, e).value, returned)
  {
    TellsOn(s, Next(s, e).value, returned, returned);
  }

  lemma FrameTimerTells(s: State, n: nat, returned: seq<Outcome>)
    requires TellInv(s, returned) && Next(s, FrameTimerFires(n)).Some?
    ensures TellInv(Next(s, FrameTimerFires(n)).value, returned)
  {
    KindStays(s.tasks, n, s.tasks[n].(expired := true));
    TellsOn(s, Next(s, FrameTimerFires(n)).value, returned, returned);
  }

  lemma StepTells(s: State, e: Event, returned: seq<Outcome>)
    requires TellInv(s, returned) && Next(s, e).Some?
    ensures TellInv(Next(s, e).value, returned + if e.StreamReturns? then [e.outcome] else [])
  {
    assert returned + [] == returned;
    match e
    case MainStep => MainTells(s, returned);
    case TaskStep(n) => TaskTells(s, n, returned);
    case WriterLocks(_) => WriterTells(s, e, returned);
    case WriterWrites(_, _) => WriterTells(s, e, returned);
    case HandshakeFails => HandshakeTells(s, returned);
    case StreamReturns(o) => StreamTells(s, o, returned);
    case MainSeesClientGone => DrainTells(s, e, returned);
    case DrainExpires => DrainTells(s, e, returned);
    case FrameTimerFires(n) => FrameTimerTells(s, n, returned);
    case TimerFires => ReaderTells(s, e, returned);
    case Activity => ReaderTells(s, e, returned);
    case ReaderFails => ReaderTells(s, e, returned);
    case StdinOverflows => ReaderTells(s, e, returned);
    case ReaderLeaves => ReaderTells(s, e, returned);
    case _ => ConnectionTells(s, e, returned);
  }

  lemma {:induction false} RunTells(s: State, es: seq<Event>, returned: seq<Outcome>)
    requires TellInv(s, returned) && Run(s, es).Some?
    ensures TellInv(Run(s, es).value, returned + Outcomes(es))
    decreases |es|
  {
    if es == [] {
      assert returned + [] == returned;
    } else {
      StepTells(s, es[0], returned);
      var more := returned + if es[0].StreamReturns? then [es[0].outcome] else [];
      RunTells(Next(s, es[0]).value, es[1..], more);
      assert more + Outcomes(es[1..]) == returned + Outcomes(es);
    }
  }

  /**
   Main's frame says how the stream returned: a plain exit if it did without an error, an exit with the code if the
   command had one, an error if it failed. It is the frame main waits for, and there is no other from it.
   */
  lemma ReportSaysTheOutcome(es: seq<Event>, w: nat)
    requires Run(Init, es).Some? && w < |Run(Init, es).value.writers|
    requires Run(Init, es).value.writers[w].from == Main || Run(Init, es).value.main == MainReporting(w)
    ensures var writer := Run(Init, es).value.writers[w];
            && writer.from == Main && |Outcomes(es)| == 1
            && var o := Outcomes(es)[0];
               && (writer.frame == Exit(None) <==> o == Clean)
               && (forall code :: writer.frame == Exit(Some(code)) <==> o == ExitCode(code))
               && (writer.frame == Error(StreamFailed) <==> o == Failed)
  {
    RunTells(Init, es, []);
    assert [] + Outcomes(es) == Outcomes(es);
    var s := Run(Init, es).value;
    assert Tells(s.tasks, Outcomes(es), s.writers[w]);
  }

  /** A callback's frame gives its own reason, and the handshake's says that it was refused. */
  lemma ReportSaysTheReason(es: seq<Event>, w: nat, n: nat)
    requires Run(Init, es).Some? && w < |Run(Init, es).value.writers|
    requires Run(Init, es).value.writers[w].from == ByTask(n)
    ensures var s := Run(Init, es).value;
            && n < |s.tasks|
            && (s.writers[w].frame == Error(TimedOut) <==> s.tasks[n].kind == IdleDeadline)
            && (s.writers[w].frame == Error(Overflowed) <==> s.tasks[n].kind == StdinOverflow)
  {
    RunTells(Init, es, []);
    var s := Run(Init, es).value;
    assert Tells(s.tasks, [] + Outcomes(es), s.writers[w]);
  }

  /** So what the browser reads is true: of how the stream returned, and of why the session was closed otherwise. */
  lemma WireIsTruthful(es: seq<Event>, frame: Frame)
    requires Run(Init, es).Some? && frame in Run(Init, es).value.wire
    ensures var s := Run(Init, es).value;
            match frame
            case Ready => true
            case Exit(None) => Outcomes(es) == [Clean] && s.claim == Main
            case Exit(Some(code)) => Outcomes(es) == [ExitCode(code)] && s.claim == Main
            case Error(StreamFailed) => Outcomes(es) == [Failed] && s.claim == Main
            case Error(Refusal) => !Started(s)
            case Error(TimedOut) =>
              s.claim.ByTask? && s.claim.n < |s.tasks| && s.tasks[s.claim.n].kind == IdleDeadline
            case Error(Overflowed) =>
              s.claim.ByTask? && s.claim.n < |s.tasks| && s.tasks[s.claim.n].kind == StdinOverflow
  {
    RunTells(Init, es, []);
    assert [] + Outcomes(es) == Outcomes(es);
    RunKeepsInv(Init, es);
    var s := Run(Init, es).value;
    assert Sent(s.writers, frame);
    var w :| 0 <= w < |s.writers| && s.writers[w].frame == frame && s.writers[w].pc == Done(true);
    assert Tells(s.tasks, Outcomes(es), s.writers[w]) && WriterInv(s, w, s.writers[w]);
  }

  // ---------------------------------------------------------------- main is never stuck

  /** The writer main waits for. */
  predicate AwaitsWriter(pc: MainPc) {
    pc.Refusing? || pc.SendingReady? || pc.MainReporting?
  }

  /** What brings a queued or writing frame on: whoever holds the lock finishes first. */
  function WriterEvent(s: State, w: nat): Event
    requires w < |s.writers|
  {
    if s.writers[w].pc.Done? then MainStep
    else if s.writers[w].pc.Holding? then WriterWrites(w, true)
    else
      match s.lock
      case Free => WriterLocks(w)
      case Stdout => StdoutWrites(true)
      case Control(v) => WriterWrites(v, true)
  }

  function UsefulEvent(s: State): Event
    requires AwaitsWriter(s.main) ==> s.main.w < |s.writers|
  {
    if s.main.Authenticating? then HandshakeFails
    else if AwaitsWriter(s.main) then WriterEvent(s, s.main.w)
    else if AwaitsStream(s.main) && s.stream.Running? then StreamReturns(Clean)
    else MainStep
  }

  function StepsLeft(s: State): nat {
    match s.main
    case Authenticating => 12
    case Refusing(_) => 2
    case SendingReady(_) => 11
    case Awaiting => 10
    case Draining => 10
    case DrainCancelled => 10
    case Claiming(_) => 9
    case MainClaimed(_) => 8
    case MainReporting(_) => 7
    case Leaving => 6
    case IdleStopped => 5
    case Returned => 0
    case Refused => 0
  }

  function WaitLeft(s: State): nat {
    if AwaitsWriter(s.main) && s.main.w < |s.writers| then
      match s.writers[s.main.w].pc
      case Done(_) => 0
      case Holding => 1
      case Queued => if s.lock.Free? then 2 else 3
    else if AwaitsStream(s.main) && s.stream.Running? then 1 else 0
  }

  lemma WriterEventHelps(s: State)
    requires WritersInv(s) && AwaitsWriter(s.main) && s.main.w < |s.writers| && !s.writers[s.main.w].pc.Done?
    ensures var next := Next(s, WriterEvent(s, s.main.w));
            next.Some? && next.value.main == s.main && WaitLeft(next.value) < WaitLeft(s)
  {
    assert WriterInv(s, s.main.w, s.writers[s.main.w]);
    if s.lock.Control? {
      assert WriterInv(s, s.lock.w, s.writers[s.lock.w]);
    }
  }

  lemma UsefulEventHelps(s: State, returned: seq<Outcome>)
    requires Inv(s) && TellInv(s, returned) && !s.main.Returned? && !s.main.Refused?
    ensures var next := Next(s, UsefulEvent(s));
            && next.Some?
            && (StepsLeft(next.value) < StepsLeft(s) ||
                (next.value.main == s.main && WaitLeft(next.value) < WaitLeft(s)))
            && (next.value.main.Returned? ==> next.value.cancelled)
  {
    if AwaitsWriter(s.main) {
      if s.writers[s.main.w].pc.Done? {
        MainStepHelps(s);
      } else {
        WriterEventHelps(s);
      }
    } else if AwaitsStream(s.main) {
      StreamEventHelps(s);
    } else if !s.main.Authenticating? {
      MainStepHelps(s);
    }
  }

  lemma StreamEventHelps(s: State)
    requires AwaitsStream(s.main) && (s.stream.Running? || s.stream.Finished?)
    ensures var next := Next(s, UsefulEvent(s));
            && next.Some? && !next.value.main.Returned?
            && (StepsLeft(next.value) < StepsLeft(s) ||
                (next.value.main == s.main && WaitLeft(next.value) < WaitLeft(s)))
  {
  }

  lemma MainStepHelps(s: State)
    requires !s.main.Authenticating? && !AwaitsStream(s.main) && !s.main.Returned? && !s.main.Refused?
    requires AwaitsWriter(s.main) ==> s.main.w < |s.writers| && s.writers[s.main.w].pc.Done?
    ensures var next := NextMain(s);
            && next.Some? && StepsLeft(next.value) < StepsLeft(s)
            && (next.value.main.Returned? ==> next.value.cancelled)
  {
  }

  lemma {:induction false} MainCanEnd(s: State, returned: seq<Outcome>) returns (es: seq<Event>)
    requires Inv(s) && TellInv(s, returned) && (s.main.Returned? ==> s.cancelled)
    ensures Run(s, es).Some?
    ensures var t := Run(s, es).value; t.main.Refused? || (t.main.Returned? && t.cancelled)
    decreases StepsLeft(s), WaitLeft(s)
  {
    if s.main.Returned? || s.main.Refused? {
      return [];
    }
    var e := UsefulEvent(s);
    UsefulEventHelps(s, returned);
    StepKeepsInv(s, e);
    StepTells(s, e, returned);
    es := MainCanEnd(Next(s, e).value, returned + if e.StreamReturns? then [e.outcome] else []);
    assert ([e] + es)[1..] == es;
    es := [e] + es;
  }

  lemma {:induction false} ReturnedIsCancelled(s: State, es: seq<Event>)
    requires (s.main.Returned? ==> s.cancelled) && Run(s, es).Some?
    ensures Run(s, es).value.main.Returned? ==> Run(s, es).value.cancelled
    decreases |es|
  {
    if es != [] {
      CancelledStep(s, es[0]);
      ReturnedIsCancelled(Next(s, es[0]).value, es[1..]);
    }
  }

  lemma CancelledStep(s: State, e: Event)
    requires (s.main.Returned? ==> s.cancelled) && Next(s, e).Some?
    ensures Next(s, e).value.main.Returned? ==> Next(s, e).value.cancelled
  {
    match e
    case MainStep =>
    case TaskStep(n) => MainAndCancel(s, n);
    case WriterLocks(_) => WriterLeavesTasks(s, e);
    case WriterWrites(_, _) => WriterLeavesTasks(s, e);
    case _ =>
  }

  lemma MainAndCancel(s: State, n: nat)
    requires n < |s.tasks| && NextTask(s, n).Some?
    ensures var next := NextTask(s, n).value; next.main == s.main && (s.cancelled ==> next.cancelled)
  {
  }

  /**
   No session hangs: from every reachable state it is enough that the stream returns and that the writes under way
   finish for main to come to its end, with the session context cancelled.
   */
  lemma SessionCanEnd(es: seq<Event>) returns (more: seq<Event>)
    requires Run(Init, es).Some?
    ensures Run(Run(Init, es).value, more).Some?
    ensures var t := Run(Run(Init, es).value, more).value; t.main.Refused? || (t.main.Returned? && t.cancelled)
  {
    RunKeepsInv(Init, es);
    RunTells(Init, es, []);
    ReturnedIsCancelled(Init, es);
    more := MainCanEnd(Run(Init, es).value, [] + Outcomes(es));
  }

  function TaskStepsLeft(t: Task): nat {
    match t
    case Entering(_) => 7
    case Lost(_) => 0
    case Claimed(_) => 6
    case Reporting(_, _, expired, Waiting) => if expired then 4 else 5
    case Reporting(_, _, _, Storing) => 3
    case Reporting(_, _, _, Cancelling) => 2
    case Reporting(_, _, _, Ended) => 0
  }

  /** Nor is a callback: by its own steps, and its timer at the latest, each comes to its end. */
  lemma {:induction false} TaskCanEnd(s: State, n: nat) returns (es: seq<Event>)
    requires n < |s.tasks|
    ensures Run(s, es).Some? && n < |Run(s, es).value.tasks| && TaskOver(Run(s, es).value.tasks[n])
    ensures forall e | e in es :: e == TaskStep(n) || e == FrameTimerFires(n)
    decreases TaskStepsLeft(s.tasks[n])
  {
    if TaskOver(s.tasks[n]) {
      return [];
    }
    var e := if s.tasks[n].Reporting? && s.tasks[n].stage.Waiting? && !s.tasks[n].expired then FrameTimerFires(n)
             else TaskStep(n);
    TaskEventHelps(s, n, e);
    es := TaskCanEnd(Next(s, e).value, n);
    assert ([e] + es)[1..] == es;
    es := [e] + es;
  }

  lemma TaskEventHelps(s: State, n: nat, e: Event)
    requires n < |s.tasks| && !TaskOver(s.tasks[n])
    requires e == if s.tasks[n].Reporting? && s.tasks[n].stage.Waiting? && !s.tasks[n].expired then FrameTimerFires(n)
                  else TaskStep(n)
    ensures Next(s, e).Some? && n < |Next(s, e).value.tasks|
    ensures TaskStepsLeft(Next(s, e).value.tasks[n]) < TaskStepsLeft(s.tasks[n])
  {
  }

  /**
   The idle timer: traffic in either direction arms it again, as promotion armed it first; firing and the end of the
   session disarm it, and nothing else touches it.
   */
  lemma IdleTimerExactly(s: State, e: Event)
    requires Next(s, e).Some?
    ensures Next(s, e).value.armed ==
              match e
              case Activity => true
              case StdoutWrites(ok) => s.armed || ok
              case TimerFires => false
              case MainStep => s.main.Authenticating? || (s.armed && !s.main.Leaving?)
              case _ => s.armed
  {
    match e
    case MainStep => MainTimer(s);
    case TaskStep(n) => TaskLeavesTimer(s, n);
    case PingStep => PingLeavesTimer(s);
    case WriterLocks(_) => WriterLeavesTimer(s, e);
    case WriterWrites(_, _) => WriterLeavesTimer(s, e);
    case _ =>
  }

  lemma MainTimer(s: State)
    requires NextMain(s).Some?
    ensures NextMain(s).value.armed == (s.main.Authenticating? || (s.armed && !s.main.Leaving?))
    ensures NextMain(s).value.clientGone == s.clientGone
  {
  }

  lemma PingLeavesTimer(s: State)
    requires NextPing(s).Some?
    ensures NextPing(s).value.armed == s.armed && NextPing(s).value.clientGone == s.clientGone
  {
  }

  lemma WriterLeavesTimer(s: State, e: Event)
    requires (e.WriterLocks? || e.WriterWrites?) && NextWriter(s, e).Some?
    ensures NextWriter(s, e).value.armed == s.armed && NextWriter(s, e).value.clientGone == s.clientGone
  {
  }

  /**
   Each time the timer fires an idle callback starts, and each refused frame starts the overflow's, which the reader
   waits for; that the browser is gone is what the reader's end, and nothing else, says.
   */
  lemma CallbacksStartExactly(s: State, e: Event)
    requires Next(s, e).Some? && (e.TimerFires? || e.StdinOverflows? || e.ReaderLeaves? || e.ReaderFails?)
    ensures var next := Next(s, e).value;
            match e
            case TimerFires => next.tasks == s.tasks + [Entering(IdleDeadline)] && next.clientGone == s.clientGone
            case StdinOverflows =>
              && next.tasks == s.tasks + [Entering(StdinOverflow)] && next.reader == Overflowing(|s.tasks|)
              && next.clientGone == s.clientGone
            case ReaderLeaves => TaskOver(s.tasks[s.reader.n]) && next.clientGone && next.tasks == s.tasks
            case _ => next.clientGone && next.tasks == s.tasks
  {
  }

  lemma TaskLeavesTimer(s: State, n: nat)
    requires n < |s.tasks| && NextTask(s, n).Some?
    ensures NextTask(s, n).value.armed == s.armed && NextTask(s, n).value.clientGone == s.clientGone
  {
  }

  /** A ping that fails ends the session, unless the browser is known to be gone: then it leaves everything as it is. */
  lemma PingFailureEnds(s: State)
    requires s.ping == PingFailed
    ensures s.clientGone ==> Next(s, PingStep) == Some(s.(ping := PingExited))
    ensures !s.clientGone ==>
              && Run(s, [PingStep, PingStep, PingStep]).Some?
              && var t := Run(s, [PingStep, PingStep, PingStep]).value;
                 t.ping == PingExited && t.ending && t.quiet && t.cancelled
  {
    if !s.clientGone {
      var s1 := Next(s, PingStep).value;
      var s2 := Next(s1, PingStep).value;
      var s3 := Next(s2, PingStep).value;
      assert [PingStep, PingStep, PingStep][1..] == [PingStep, PingStep];
      assert [PingStep, PingStep][1..] == [PingStep] && [PingStep][1..] == [];
      assert Run(s2, [PingStep]) == Some(s3) && Run(s1, [PingStep, PingStep]) == Some(s3);
    }
  }

  lemma {:induction false} RunSnoc(s: State, es: seq<Event>, e: Event)
    requires Run(s, es).Some?
    ensures Run(s, es + [e]) == Next(Run(s, es).value, e)
    decreases |es|
  {
    if es == [] {
      assert es + [e] == [e] && [e][1..] == [];
    } else {
      assert (es + [e])[1..] == es[1..] + [e] && (es + [e])[0] == es[0];
      RunSnoc(Next(s, es[0]).value, es[1..], e);
    }
  }

  lemma Reach(es: seq<Event>, s: State, e: Event, t: State)
    requires Run(Init, es) == Some(s) && Next(s, e) == Some(t)
    ensures Run(Init, es + [e]) == Some(t)
  {
    RunSnoc(Init, es, e);
  }

  /** Main waiting for the stream, once "ready" is written. */
  const STREAMING := Init.(main := Awaiting, stream := Running, armed := true, reader := Reading, ping := Pinging,
                           writers := [Writer(Nobody, Ready, Done(true))], wire := [Ready])

  const OPENING: seq<Event> := [] + [MainStep] + [WriterLocks(0)] + [WriterWrites(0, true)] + [MainStep]

  lemma OpeningRuns()
    ensures Run(Init, OPENING) == Some(STREAMING)
  {
    var s1 := Attempt(Init, Nobody, Ready).(main := SendingReady(0), armed := true, reader := Reading, ping := Pinging);
    var s2 := s1.(writers := [Writer(Nobody, Ready, Holding)], lock := Control(0));
    var s3 := s1.(writers := [Writer(Nobody, Ready, Done(true))], lock := Free, wire := [Ready]);
    var es: seq<Event> := [];
    Reach(es, Init, MainStep, s1);
    assert s1.writers == [Writer(Nobody, Ready, Queued)];
    assert s1.writers[0 := Writer(Nobody, Ready, Holding)] == s2.writers;
    assert s2.writers[0 := Writer(Nobody, Ready, Done(true))] == s3.writers && s2.wire + [Ready] == s3.wire;
    Reach(es + [MainStep], s1, WriterLocks(0), s2);
    Reach(es + [MainStep] + [WriterLocks(0)], s2, WriterWrites(0, true), s3);
    Reach(es + [MainStep] + [WriterLocks(0)] + [WriterWrites(0, true)], s3, MainStep, STREAMING);
  }

  /** The two ways there are: pingLoop ended the session while the stream was coming to its end ... */
  lemma PingLeavesMainUntold()
    ensures var es := OPENING + [PingTickFails] + [PingStep] + [PingStep] + [StreamReturns(Clean)] + [MainStep];
            && Run(Init, es).Some?
            && var s := Run(Init, es).value;
               s.main.Claiming? && s.ending && s.claim == Ping && TerminalAttempts(s.writers) == 0
  {
    OpeningRuns();
    var s1 := STREAMING.(ping := PingFailed);
    var s2 := STREAMING.(ping := PingStoring);
    var s3 := STREAMING.(ping := PingCancelling, ending := true, quiet := true, claim := Ping);
    var s4 := s3.(stream := Finished(Clean));
    var s5 := s3.(stream := Delivered, main := Claiming(Clean));
    Reach(OPENING, STREAMING, PingTickFails, s1);
    Reach(OPENING + [PingTickFails], s1, PingStep, s2);
    Reach(OPENING + [PingTickFails] + [PingStep], s2, PingStep, s3);
    Reach(OPENING + [PingTickFails] + [PingStep] + [PingStep], s3, StreamReturns(Clean), s4);
    Reach(OPENING + [PingTickFails] + [PingStep] + [PingStep] + [StreamReturns(Clean)], s4, MainStep, s5);
    OnlyReady(s5);
  }

  lemma OnlyReady(s: State)
    requires s.writers == [Writer(Nobody, Ready, Done(true))]
    ensures TerminalAttempts(s.writers) == 0
  {
    assert s.writers[..0] == [];
  }

  /** ... or an idle deadline has just won the claim and its frame is not on its way yet. */
  lemma IdleLeavesMainUntold()
    ensures var es := OPENING + [TimerFires] + [TaskStep(0)] + [StreamReturns(Clean)] + [MainStep];
            && Run(Init, es).Some?
            && var s := Run(Init, es).value;
               s.main.Claiming? && s.ending && s.claim == ByTask(0) && TerminalAttempts(s.writers) == 0
  {
    OpeningRuns();
    var s1 := STREAMING.(armed := false, tasks := [Entering(IdleDeadline)]);
    var s2 := s1.(tasks := [Claimed(IdleDeadline)], ending := true, claim := ByTask(0));
    var s3 := s2.(stream := Finished(Clean));
    var s4 := s2.(stream := Delivered, main := Claiming(Clean));
    assert STREAMING.tasks + [Entering(IdleDeadline)] == s1.tasks;
    assert s1.tasks[0 := Claimed(IdleDeadline)] == s2.tasks;
    Reach(OPENING, STREAMING, TimerFires, s1);
    Reach(OPENING + [TimerFires], s1, TaskStep(0), s2);
    Reach(OPENING + [TimerFires] + [TaskStep(0)], s2, StreamReturns(Clean), s3);
    Reach(OPENING + [TimerFires] + [TaskStep(0)] + [StreamReturns(Clean)], s3, MainStep, s4);
    OnlyReady(s4);
  }

  /** An idle claimant's frame queued on the write lock, which a stdout write holds. */
  const STALL: seq<Event> := OPENING + [StdoutLocks] + [TimerFires] + [TaskStep(0)] + [TaskStep(0)]

  const STALLED := STREAMING.(lock := Stdout, armed := false, ending := true, claim := ByTask(0),
                              tasks := [Reporting(IdleDeadline, 1, false, Waiting)],
                              writers := STREAMING.writers + [Writer(ByTask(0), Error(TimedOut), Queued)])

  lemma StallRuns()
    ensures Run(Init, STALL) == Some(STALLED) && TerminalAttempts(STALLED.writers) == 1
  {
    OpeningRuns();
    var s1 := STREAMING.(lock := Stdout);
    var s2 := s1.(armed := false, tasks := [Entering(IdleDeadline)]);
    var s3 := s2.(tasks := [Claimed(IdleDeadline)], ending := true, claim := ByTask(0));
    assert STREAMING.tasks + [Entering(IdleDeadline)] == s2.tasks;
    assert s2.tasks[0 := Claimed(IdleDeadline)] == s3.tasks && s3.tasks[0 := STALLED.tasks[0]] == STALLED.tasks;
    Reach(OPENING, STREAMING, StdoutLocks, s1);
    Reach(OPENING + [StdoutLocks], s1, TimerFires, s2);
    Reach(OPENING + [StdoutLocks] + [TimerFires], s2, TaskStep(0), s3);
    Reach(OPENING + [StdoutLocks] + [TimerFires] + [TaskStep(0)], s3, TaskStep(0), STALLED);
    OnlyReady(STREAMING);
    CountAppend(STREAMING.writers, Writer(ByTask(0), Error(TimedOut), Queued));
  }

  /** Two more ways in which the browser was not told: the stream ends while the frame is queued behind stdout ... */
  lemma QueuedFrameLeavesUntold()
    ensures var es := STALL + [StreamReturns(Clean)] + [MainStep];
            && Run(Init, es).Some?
            && var s := Run(Init, es).value;
               && s.main.Claiming? && s.ending && s.claim == ByTask(0)
               && TerminalAttempts(s.writers) == 1 && s.wire == [Ready]
  {
    StallRuns();
    var s1 := STALLED.(stream := Finished(Clean));
    var s2 := STALLED.(stream := Delivered, main := Claiming(Clean));
    Reach(STALL, STALLED, StreamReturns(Clean), s1);
    Reach(STALL + [StreamReturns(Clean)], s1, MainStep, s2);
  }

  /** ... or the timer gives up on the frame, as it does for a client that stopped reading, and the session ends. */
  lemma StalledClientIsNeverTold()
    ensures var es := STALL + [FrameTimerFires(0)] + [TaskStep(0)] + [TaskStep(0)] + [TaskStep(0)] +
                      [StreamReturns(Failed)] + [MainStep];
            && Run(Init, es).Some?
            && var s := Run(Init, es).value;
               && s.main.Claiming? && s.ending && s.cancelled && s.claim == ByTask(0)
               && TerminalAttempts(s.writers) == 1 && s.wire == [Ready]
  {
    StallRuns();
    var givenUp := Reporting(IdleDeadline, 1, true, Waiting);
    var s1 := STALLED.(tasks := [givenUp]);
    var s2 := s1.(tasks := [givenUp.(stage := Storing)]);
    var s3 := s2.(tasks := [givenUp.(stage := Cancelling)], quiet := true);
    var s4 := s3.(tasks := [givenUp.(stage := Ended)], cancelled := true);
    var s5 := s4.(stream := Finished(Failed));
    var s6 := s4.(stream := Delivered, main := Claiming(Failed));
    assert STALLED.tasks[0 := givenUp] == s1.tasks && s1.tasks[0 := s2.tasks[0]] == s2.tasks;
    assert s2.tasks[0 := s3.tasks[0]] == s3.tasks && s3.tasks[0 := s4.tasks[0]] == s4.tasks;
    var es := STALL + [FrameTimerFires(0)];
    Reach(STALL, STALLED, FrameTimerFires(0), s1);
    Reach(es, s1, TaskStep(0), s2);
    Reach(es + [TaskStep(0)], s2, TaskStep(0), s3);
    Reach(es + [TaskStep(0)] + [TaskStep(0)], s3, TaskStep(0), s4);
    Reach(es + [TaskStep(0)] + [TaskStep(0)] + [TaskStep(0)], s4, StreamReturns(Failed), s5);
    Reach(es + [TaskStep(0)] + [TaskStep(0)] + [TaskStep(0)] + [StreamReturns(Failed)], s5, MainStep, s6);
  }

  /** The stream has returned with an exit code, and main's frame is on its way. */
  function Reported(code: int): State {
    STREAMING.(stream := Delivered, main := MainReporting(1), ending := true, claim := Main,
               writers := STREAMING.writers + [Writer(Main, Exit(Some(code)), Queued)])
  }

  lemma ReportRuns(code: int)
    ensures Run(Init, OPENING + [StreamReturns(ExitCode(code))] + [MainStep] + [MainStep] + [MainStep])
         == Some(Reported(code))
  {
    OpeningRuns();
    var o := ExitCode(code);
    var s1 := STREAMING.(stream := Finished(o));
    var s2 := STREAMING.(stream := Delivered, main := Claiming(o));
    var s3 := s2.(main := MainClaimed(o), ending := true, claim := Main);
    Reach(OPENING, STREAMING, StreamReturns(o), s1);
    Reach(OPENING + [StreamReturns(o)], s1, MainStep, s2);
    Reach(OPENING + [StreamReturns(o)] + [MainStep], s2, MainStep, s3);
    Reach(OPENING + [StreamReturns(o)] + [MainStep] + [MainStep], s3, MainStep, Reported(code));
  }

  /** A session can end as it should: the command exits with a code, and the browser is told which. */
  lemma ExitCodeArrives(code: int)
    ensures var es := OPENING + [StreamReturns(ExitCode(code))] + [MainStep] + [MainStep] + [MainStep] +
                      [WriterLocks(1)] + [WriterWrites(1, true)] + [MainStep];
            && Run(Init, es).Some?
            && Run(Init, es).value.wire == [Ready, Exit(Some(code))] && Run(Init, es).value.main == Leaving
  {
    ReportRuns(code);
    var frame := Writer(Main, Exit(Some(code)), Queued);
    var s4 := Reported(code);
    var s5 := s4.(writers := STREAMING.writers + [frame.(pc := Holding)], lock := Control(1));
    var s6 := s4.(writers := STREAMING.writers + [frame.(pc := Done(true))], wire := [Ready, Exit(Some(code))]);
    assert s4.writers[1 := frame.(pc := Holding)] == s5.writers;
    assert s5.writers[1 := frame.(pc := Done(true))] == s6.writers && s5.wire + [Exit(Some(code))] == s6.wire;
    var es := OPENING + [StreamReturns(ExitCode(code))] + [MainStep] + [MainStep] + [MainStep];
    Reach(es, s4, WriterLocks(1), s5);
    Reach(es + [WriterLocks(1)], s5, WriterWrites(1, true), s6);
    Reach(es + [WriterLocks(1)] + [WriterWrites(1, true)], s6, MainStep, s6.(main := Leaving));
  }

  /** The write lock admits one control frame at a time. */
  lemma OneWriterHolds(es: seq<Event>, v: nat, w: nat)
    requires Run(Init, es).Some?
    requires v < |Run(Init, es).value.writers| && Run(Init, es).value.writers[v].pc.Holding?
    requires w < |Run(Init, es).value.writers| && Run(Init, es).value.writers[w].pc.Holding?
    ensures v == w && !Run(Init, es).value.lock.Stdout?
  {
    RunKeepsInv(Init, es);
    var s := Run(Init, es).value;
    assert WriterInv(s, v, s.writers[v]) && WriterInv(s, w, s.writers[w]);
  }

  /** end() is not reached before the explanation was written (or failed), unless its timer expired. */
  lemma ExplanationComesFirst(es: seq<Event>, n: nat)
    requires Run(Init, es).Some? && n < |Run(Init, es).value.tasks|
    requires Run(Init, es).value.tasks[n].Reporting? && !Run(Init, es).value.tasks[n].stage.Waiting?
    ensures var s := Run(Init, es).value;
            s.tasks[n].expired || WriterDone(s, s.tasks[n].w)
  {
    RunKeepsInv(Init, es);
    var s := Run(Init, es).value;
    assert TaskInv(s, n, s.tasks[n]);
  }

  // ---------------------------------------------------------------- an idle or overflow claim reaches end()

  /** The claimant's own steps left before the session context is cancelled. */
  function Remaining(t: Task): nat {
    match t
    case Claimed(_) => 4
    case Reporting(_, _, _, Waiting) => 3
    case Reporting(_, _, _, Storing) => 2
    case Reporting(_, _, _, Cancelling) => 1
    case _ => 0
  }

  function StepsOf(es: seq<Event>, n: nat): nat {
    if es == [] then 0 else StepsOf(es[1..], n) + if es[0] == TaskStep(n) then 1 else 0
  }

  /** With its frame timer expired, the claimant can always take its next step, whoever holds the write lock. */
  lemma ClaimantIsNeverBlocked(s: State, n: nat)
    requires Inv(s) && n < |s.tasks| && TaskHasClaim(s.tasks[n]) && Remaining(s.tasks[n]) > 0
    ensures Next(s, TaskStep(n)).Some? || Next(s, FrameTimerFires(n)).Some?
    ensures (s.tasks[n].Reporting? && s.tasks[n].stage.Waiting? ==> s.tasks[n].expired) ==> Next(s, TaskStep(n)).Some?
  {
  }

  lemma OthersLeaveTask(s: State, e: Event, n: nat)
    requires n < |s.tasks| && Next(s, e).Some?
    requires e != TaskStep(n) && e != FrameTimerFires(n)
    ensures n < |Next(s, e).value.tasks| && Next(s, e).value.tasks[n] == s.tasks[n]
  {
    match e
    case MainStep => MainLeavesTasks(s);
    case PingStep => PingLeavesTasks(s);
    case TaskStep(m) => TaskLeavesOthers(s, m, n);
    case WriterLocks(_) => WriterLeavesTasks(s, e);
    case WriterWrites(_, _) => WriterLeavesTasks(s, e);
    case _ =>
  }

  lemma MainLeavesTasks(s: State)
    requires NextMain(s).Some?
    ensures NextMain(s).value.tasks == s.tasks
  {
  }

  lemma PingLeavesTasks(s: State)
    requires NextPing(s).Some?
    ensures NextPing(s).value.tasks == s.tasks
  {
  }

  lemma WriterLeavesTasks(s: State, e: Event)
    requires (e.WriterLocks? || e.WriterWrites?) && NextWriter(s, e).Some?
    ensures NextWriter(s, e).value.tasks == s.tasks
  {
  }

  lemma TaskLeavesOthers(s: State, m: nat, n: nat)
    requires m < |s.tasks| && n < |s.tasks| && m != n && NextTask(s, m).Some?
    ensures n < |NextTask(s, m).value.tasks| && NextTask(s, m).value.tasks[n] == s.tasks[n]
  {
  }

  lemma OwnStep(s: State, n: nat)
    requires n < |s.tasks| && TaskHasClaim(s.tasks[n]) && NextTask(s, n).Some?
    ensures TaskHasClaim(NextTask(s, n).value.tasks[n])
    ensures Remaining(NextTask(s, n).value.tasks[n]) + 1 == Remaining(s.tasks[n])
    ensures |NextTask(s, n).value.tasks| == |s.tasks|
  {
  }

  lemma ProgressStep(s: State, e: Event, n: nat)
    requires n < |s.tasks| && TaskHasClaim(s.tasks[n]) && Next(s, e).Some?
    ensures n < |Next(s, e).value.tasks| && TaskHasClaim(Next(s, e).value.tasks[n])
    ensures Remaining(Next(s, e).value.tasks[n]) + (if e == TaskStep(n) then 1 else 0) == Remaining(s.tasks[n])
  {
    if e == TaskStep(n) {
      OwnStep(s, n);
    } else if e != FrameTimerFires(n) {
      OthersLeaveTask(s, e, n);
    }
  }

  /** Nobody else can undo, delay or repeat the claimant's steps: after four of its own the session is cancelled. */
  lemma {:induction false} ClaimReachesEnd(s: State, es: seq<Event>, n: nat)
    requires Inv(s) && n < |s.tasks| && TaskHasClaim(s.tasks[n]) && Run(s, es).Some?
    ensures StepsOf(es, n) <= Remaining(s.tasks[n])
    ensures StepsOf(es, n) == Remaining(s.tasks[n]) ==>
              Run(s, es).value.cancelled && Run(s, es).value.ending && Run(s, es).value.quiet
    decreases |es|
  {
    if es == [] {
      assert TaskInv(s, n, s.tasks[n]);
    } else {
      StepKeepsInv(s, es[0]);
      ProgressStep(s, es[0], n);
      ClaimReachesEnd(Next(s, es[0]).value, es[1..], n);
    }
  }
}
