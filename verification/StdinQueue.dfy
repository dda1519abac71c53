/**
 Stdin staging of internal/exec/streams.go: the byte-bounded queue, and the interleavings
 of the goroutine that fills it (readLoop) with the one that drains it (stdinPump).
 */
module StdinQueue {

  type Bytes = seq<bv8>

  /** Charged against the cap per staged frame, on top of its payload. */
  const FRAME_OVERHEAD := 64

  function Charge(frames: seq<Bytes>): nat {
    if frames == [] then 0 else |frames[0]| + FRAME_OVERHEAD + Charge(frames[1..])
  }

  function Concat(frames: seq<Bytes>): Bytes {
    if frames == [] then [] else frames[0] + Concat(frames[1..])
  }

  lemma {:induction false} ChargeAppend(frames: seq<Bytes>, data: Bytes)
    ensures Charge(frames + [data]) == Charge(frames) + |data| + FRAME_OVERHEAD
  {
    if frames != [] {
      assert (frames + [data])[1..] == frames[1..] + [data];
      ChargeAppend(frames[1..], data);
    }
  }

  lemma {:induction false} ConcatAppend(frames: seq<Bytes>, data: Bytes)
    ensures Concat(frames + [data]) == Concat(frames) + data
  {
    if frames != [] {
      assert (frames + [data])[1..] == frames[1..] + [data];
      ConcatAppend(frames[1..], data);
    }
  }

  // ---------------------------------------------------------------- the queue

  datatype Queue = Queue(frames: seq<Bytes>, closed: bool)

  predicate Fits(q: Queue, data: Bytes, limit: int) {
    Charge(q.frames) + |data| + FRAME_OVERHEAD <= limit
  }

  function Pushed(q: Queue, data: Bytes, limit: int): Queue {
    if Fits(q, data, limit) then q.(frames := q.frames + [data]) else q
  }

  /** What next() does: hand out the oldest frame, report the end, or keep waiting. */
  datatype NextResult = Waits | EndOfInput | Taken(data: Bytes)

  function NextOf(q: Queue): NextResult {
    if q.frames != [] then Taken(q.frames[0]) else if q.closed then EndOfInput else Waits
  }

  class StdinQueue {
    var frames: seq<Bytes>
    var staged: int
    var closed: bool
    const limit: int

    /** `staged` is exact, and over the cap only if nothing is staged at all. */
    ghost predicate Valid()
      reads this
    {
      staged == Charge(frames) && (frames != [] ==> staged <= limit)
    }

    ghost function Contents(): Queue
      reads this
    {
      Queue(frames, closed)
    }

    constructor (limit: int)
      ensures Valid() && Contents() == Queue([], false) && this.limit == limit
    {
      this.limit := limit;
      frames, staged, closed := [], 0, false;
    }

    method Push(data: Bytes) returns (ok: bool)
      requires Valid()
      modifies this
      ensures Valid() && Contents() == Pushed(old(Contents()), data, limit)
      ensures ok == Fits(old(Contents()), data, limit)
      ensures ok <==> Charge(old(frames)) + |data| + FRAME_OVERHEAD <= limit
    {
      if staged + |data| + FRAME_OVERHEAD > limit {
        return false;
      }
      ChargeAppend(frames, data);
      frames := frames + [data];
      staged := staged + |data| + FRAME_OVERHEAD;
      return true;
    }

    method Close()
      requires Valid()
      modifies this
      ensures Valid() && Contents() == old(Contents()).(closed := true)
    {
      closed := true;
    }

    /** One pass of next() through its wait loop. */
    method Next() returns (r: NextResult)
      requires Valid()
      modifies this
      ensures Valid() && r == NextOf(old(Contents()))
      ensures Contents() == if r.Taken? then old(Contents()).(frames := old(frames)[1..]) else old(Contents())
    {
      if |frames| == 0 {
        return if closed then EndOfInput else Waits;
      }
      var data := frames[0];
      frames := frames[1..];
      staged := staged - (|data| + FRAME_OVERHEAD);
      return Taken(data);
    }
  }

  // ---------------------------------------------------------------- readLoop, stdinPump and the pipe

  datatype ReaderPc = Reading | Holding(data: Bytes) | Overflowing | Leaving(refused: bool) | Left(refused: bool)
  datatype PumpPc = Pulling | Writing(rest: Bytes) | Drained | Failed(lost: Bytes)

  datatype State = State(
    limit: int,
    queue: Queue,
    reader: ReaderPc,
    pump: PumpPc,
    received: seq<Bytes>, // binary frames conn.Read returned, in order
    accepted: seq<Bytes>, // those the queue took
    pipe: Bytes)          // bytes the executor has read from the stdin pipe

  function Init(limit: int): State {
    State(limit, Queue([], false), Reading, Pulling, [], [], [])
  }

  datatype Event =
    | ReadBinary(data: Bytes)
    | ReadFails
    | PushFrame
    | OverflowReturns
    | CloseQueue
    | Pull
    | PipeReads(n: nat)
    | WriteReturns
    | WriteFails

  predicate Enabled(s: State, e: Event) {
    match e
    case ReadBinary(_) => s.reader.Reading?
    case ReadFails => s.reader.Reading?
    case PushFrame => s.reader.Holding?
    case OverflowReturns => s.reader.Overflowing?
    case CloseQueue => s.reader.Leaving?
    case Pull => s.pump.Pulling? && NextOf(s.queue) != Waits
    case PipeReads(n) => s.pump.Writing? && n <= |s.pump.rest|
    case WriteReturns => s.pump.Writing? && s.pump.rest == []
    case WriteFails => s.pump.Writing?
  }

  function Step(s: State, e: Event): State
    requires Enabled(s, e)
  {
    match e
    case ReadBinary(data) => s.(reader := Holding(data), received := s.received + [data])
    case ReadFails => s.(reader := Leaving(false))
    case PushFrame =>
      var data := s.reader.data;
      if Fits(s.queue, data, s.limit)
      then s.(reader := Reading, queue := Pushed(s.queue, data, s.limit), accepted := s.accepted + [data])
      else s.(reader := Overflowing)
    case OverflowReturns => s.(reader := Leaving(true))
    case CloseQueue => s.(reader := Left(s.reader.refused), queue := s.queue.(closed := true))
    case Pull =>
      if NextOf(s.queue).Taken?
      then s.(pump := Writing(s.queue.frames[0]), queue := s.queue.(frames := s.queue.frames[1..]))
      else s.(pump := Drained)
    case PipeReads(n) => s.(pump := Writing(s.pump.rest[n..]), pipe := s.pipe + s.pump.rest[..n])
    case WriteReturns => s.(pump := Pulling)
    case WriteFails => s.(pump := Failed(s.pump.rest))
  }

  predicate IsRun(s: State, es: seq<Event>)
    decreases |es|
  {
    es == [] || (Enabled(s, es[0]) && IsRun(Step(s, es[0]), es[1..]))
  }

  function Run(s: State, es: seq<Event>): State
    requires IsRun(s, es)
    decreases |es|
  {
    if es == [] then s else Run(Step(s, es[0]), es[1..])
  }

  /** The binary frames the browser sent, read off the events alone. */
  function Sent(es: seq<Event>): seq<Bytes> {
    if es == [] then []
    else (if es[0].ReadBinary? then [es[0].data] else []) + Sent(es[1..])
  }

  function InPump(pump: PumpPc): Bytes {
    match pump
    case Writing(rest) => rest
    case Failed(lost) => lost
    case _ => []
  }

  ghost predicate Inv(s: State) {
    && s.accepted <= s.received
    && (s.reader.Reading? ==> s.received == s.accepted)
    && (s.reader.Holding? ==> s.received == s.accepted + [s.reader.data])
    && ((s.reader.Leaving? || s.reader.Left?) && !s.reader.refused ==> s.received == s.accepted)
    && |s.received| <= |s.accepted| + 1
    && Concat(s.accepted) == s.pipe + InPump(s.pump) + Concat(s.queue.frames)
    && (s.queue.frames != [] ==> Charge(s.queue.frames) <= s.limit)
    && (s.queue.closed <==> s.reader.Left?)
    && (s.pump.Drained? ==> s.queue.closed && s.queue.frames == [])
  }

  lemma PushKeepsInv(s: State)
    requires Inv(s) && s.reader.Holding?
    ensures Inv(Step(s, PushFrame))
  {
    ChargeAppend(s.queue.frames, s.reader.data);
    ConcatAppend(s.queue.frames, s.reader.data);
    ConcatAppend(s.accepted, s.reader.data);
  }

  lemma PullKeepsInv(s: State)
    requires Inv(s) && Enabled(s, Pull)
    ensures Inv(Step(s, Pull))
  {
  }

  lemma PipeKeepsInv(s: State, e: Event)
    requires Inv(s) && Enabled(s, e) && (e.PipeReads? || e.WriteReturns? || e.WriteFails?)
    ensures Inv(Step(s, e))
  {
    if e.PipeReads? {
      var read, rest := s.pump.rest[..e.n], s.pump.rest[e.n..];
      var staged := Concat(s.queue.frames);
      assert s.pump.rest == read + rest;
      assert s.pipe + (read + rest) + staged == (s.pipe + read) + rest + staged;
    }
  }

  lemma StepKeepsInv(s: State, e: Event)
    requires Inv(s) && Enabled(s, e)
    ensures Inv(Step(s, e))
  {
    match e
    case PushFrame => PushKeepsInv(s);
    case ReadBinary(_) =>
    case ReadFails =>
    case OverflowReturns =>
    case CloseQueue =>
    case Pull => PullKeepsInv(s);
    case _ => PipeKeepsInv(s, e);
  }

  lemma {:induction false} RunKeepsInv(s: State, es: seq<Event>)
    requires Inv(s) && IsRun(s, es)
    ensures Inv(Run(s, es))
    decreases |es|
  {
    if es != [] {
      StepKeepsInv(s, es[0]);
      RunKeepsInv(Step(s, es[0]), es[1..]);
    }
  }

  lemma {:induction false} ReceivesWhatWasSent(s: State, es: seq<Event>)
    requires IsRun(s, es)
    ensures Run(s, es).received == s.received + Sent(es)
    decreases |es|
  {
    if es != [] {
      ReceivesWhatWasSent(Step(s, es[0]), es[1..]);
    }
  }

  lemma {:induction false} LimitIsFixed(s: State, es: seq<Event>)
    requires IsRun(s, es)
    ensures Run(s, es).limit == s.limit
    decreases |es|
  {
    if es != [] {
      LimitIsFixed(Step(s, es[0]), es[1..]);
    }
  }

  /** What reached the process is a gap-free prefix of the bytes the browser sent. */
  lemma PipeIsPrefixOfInput(limit: int, es: seq<Event>)
    requires IsRun(Init(limit), es)
    ensures Run(Init(limit), es).pipe <= Concat(Sent(es))
  {
    RunKeepsInv(Init(limit), es);
    ReceivesWhatWasSent(Init(limit), es);
    var s := Run(Init(limit), es);
    assert s.received == Sent(es);
    PrefixConcat(s.accepted, s.received);
    assert Concat(s.accepted) == s.pipe + InPump(s.pump) + Concat(s.queue.frames);
    PrefixOfPrefix(s.pipe, InPump(s.pump), Concat(s.queue.frames), Concat(Sent(es)));
  }

  lemma PrefixOfPrefix(a: Bytes, b: Bytes, c: Bytes, all: Bytes)
    requires a + b + c <= all
    ensures a <= all
  {
    assert a == (a + b + c)[..|a|];
  }

  lemma {:induction false} PrefixConcat(a: seq<Bytes>, b: seq<Bytes>)
    requires a <= b
    ensures Concat(a) <= Concat(b)
  {
    if a != [] {
      PrefixConcat(a[1..], b[1..]);
    }
  }

  /** Refusing a frame ends the input there: every frame before it, and none after, was accepted. */
  lemma AcceptedIsPrefix(limit: int, es: seq<Event>)
    requires IsRun(Init(limit), es)
    ensures var s := Run(Init(limit), es);
            s.accepted <= Sent(es) && |Sent(es)| <= |s.accepted| + 1
  {
    RunKeepsInv(Init(limit), es);
    ReceivesWhatWasSent(Init(limit), es);
  }

  /**
   A pump that ends without a failed write has delivered every accepted frame: all that was sent, unless one was
   refused.
   */
  lemma DrainedDeliversAll(limit: int, es: seq<Event>)
    requires IsRun(Init(limit), es) && Run(Init(limit), es).pump.Drained?
    ensures var s := Run(Init(limit), es);
            && s.reader.Left?
            && s.pipe == Concat(s.accepted)
            && (!s.reader.refused ==> s.pipe == Concat(Sent(es)))
  {
    RunKeepsInv(Init(limit), es);
    ReceivesWhatWasSent(Init(limit), es);
    DrainedState(Run(Init(limit), es));
    assert Run(Init(limit), es).received == Sent(es);
  }

  lemma DrainedState(s: State)
    requires Inv(s) && s.pump.Drained?
    ensures s.reader.Left? && s.pipe == Concat(s.accepted)
    ensures !s.reader.refused ==> s.accepted == s.received
  {
    assert s.pipe + [] + [] == s.pipe;
  }

  /** Staged bytes never exceed the cap. */
  lemma StagedWithinLimit(limit: int, es: seq<Event>)
    requires IsRun(Init(limit), es)
    ensures var q := Run(Init(limit), es).queue;
            q.frames == [] || Charge(q.frames) <= limit
  {
    RunKeepsInv(Init(limit), es);
    LimitIsFixed(Init(limit), es);
  }

  // ---------------------------------------------------------------- the end of input

  /** A frame is taken exactly if it fits beside what is staged; refused, it is the last thing read. */
  lemma AcceptsExactly(s: State)
    requires s.reader.Holding?
    ensures var next, data := Step(s, PushFrame), s.reader.data;
            if Charge(s.queue.frames) + |data| + FRAME_OVERHEAD <= s.limit
            then next.accepted == s.accepted + [data] && next.queue.frames == s.queue.frames + [data] &&
                 next.reader == Reading
            else next.accepted == s.accepted && next.queue == s.queue && next.reader == Overflowing
  {
  }

  lemma RunCons(s: State, e: Event, es: seq<Event>)
    requires Enabled(s, e) && IsRun(Step(s, e), es)
    ensures IsRun(s, [e] + es) && Run(s, [e] + es) == Run(Step(s, e), es)
  {
    assert ([e] + es)[1..] == es;
  }

  lemma {:induction false} RunAppend(s: State, a: seq<Event>, b: seq<Event>)
    requires IsRun(s, a) && IsRun(Run(s, a), b)
    ensures IsRun(s, a + b) && Run(s, a + b) == Run(Run(s, a), b)
    decreases |a|
  {
    if a == [] {
      assert a + b == b;
    } else {
      assert (a + b)[1..] == a[1..] + b;
      RunAppend(Step(s, a[0]), a[1..], b);
    }
  }

  function StepsToLeave(pc: ReaderPc): nat {
    match pc
    case Holding(_) => 4
    case Reading => 3
    case Overflowing => 3
    case Leaving(_) => 2
    case Left(_) => 0
  }

  /** Once the browser goes away the reader leaves, and closes the queue behind it. */
  lemma {:induction false} ReaderCanLeave(s: State) returns (es: seq<Event>)
    requires Inv(s)
    ensures IsRun(s, es) && Run(s, es).reader.Left? && Run(s, es).pump == s.pump && Inv(Run(s, es))
    decreases StepsToLeave(s.reader)
  {
    if s.reader.Left? {
      return [];
    }
    var e :=
      match s.reader
      case Holding(_) => PushFrame
      case Reading => ReadFails
      case Overflowing => OverflowReturns
      case Leaving(_) => CloseQueue;
    StepKeepsInv(s, e);
    es := ReaderCanLeave(Step(s, e));
    RunCons(s, e, es);
    es := [e] + es;
  }

  function StepsToDrain(pc: PumpPc): nat {
    match pc
    case Writing(rest) => if rest == [] then 2 else 3
    case Pulling => 1
    case _ => 0
  }

  /** Once the queue is closed the pump drains it, if the executor goes on reading. */
  lemma {:induction false} PumpCanDrain(s: State) returns (es: seq<Event>)
    requires Inv(s) && s.queue.closed && !s.pump.Failed?
    ensures IsRun(s, es) && Run(s, es).pump == Drained && Run(s, es).accepted == s.accepted && Inv(Run(s, es))
    decreases |s.queue.frames|, StepsToDrain(s.pump)
  {
    if s.pump.Drained? {
      return [];
    }
    var e := if s.pump.Pulling? then Pull else if s.pump.rest == [] then WriteReturns else PipeReads(|s.pump.rest|);
    StepKeepsInv(s, e);
    es := PumpCanDrain(Step(s, e));
    RunCons(s, e, es);
    es := [e] + es;
  }

  /**
   Input is never stuck: from every reachable state in which no write has failed, the browser's leaving and the
   executor's reading are enough for all bytes accepted to arrive, and for the process to see the end.
   */
  lemma InputCanEnd(limit: int, es: seq<Event>) returns (more: seq<Event>)
    requires IsRun(Init(limit), es) && !Run(Init(limit), es).pump.Failed?
    ensures var s := Run(Init(limit), es);
            && IsRun(s, more) && Run(s, more).pump == Drained && Run(s, more).pipe == Concat(Run(s, more).accepted)
            && s.accepted <= Run(s, more).accepted
  {
    RunKeepsInv(Init(limit), es);
    var s := Run(Init(limit), es);
    var leaving := ReaderCanLeave(s);
    var draining := PumpCanDrain(Run(s, leaving));
    RunAppend(s, leaving, draining);
    AcceptedGrows(s, leaving);
    var t := Run(s, leaving + draining);
    assert Concat(t.accepted) == t.pipe + [] + [];
    return leaving + draining;
  }

  lemma {:induction false} AcceptedGrows(s: State, es: seq<Event>)
    requires IsRun(s, es)
    ensures s.accepted <= Run(s, es).accepted
    decreases |es|
  {
    if es != [] {
      AcceptedGrows(Step(s, es[0]), es[1..]);
    }
  }
}
