/**
 The self-rescheduling polling loop of web/src/composables/usePollingLoop.ts.

 A step is one event handler: a timer firing, a visibility change, a gate or a poll settling,
 start or stop. A settled poll and the re-arming behind it are one step, because both run in
 the same microtask drain. `armed` is the browser's own table of pending timers, so that a
 timer the loop lost track of would still be seen.
 */
module PollingLoop {

  import opened Wrappers

  datatype Alarm = Alarm(gen: nat, due: int)
  datatype PollStart = PollStart(gen: nat, at: int)

  datatype State = State(
    interval: nat,
    timer: Option<nat>,
    gen: nat,
    live: bool,
    listening: bool,
    lastTick: int,
    inFlight: map<nat, nat>,
    armed: map<nat, Alarm>,   // window's pending timers, by handle
    nextHandle: nat,
    polls: multiset<nat>,     // generations of the polls that have not settled
    gates: set<nat>,          // generations whose gate has not resolved
    starts: seq<PollStart>,   // every poll ever started
    clock: int)

  function Init(interval: nat, now: int): State {
    State(interval, None, 0, false, false, 0, map[], map[], 0, multiset{}, {}, [], now)
  }

  predicate IsCurrent(s: State, g: nat) {
    g == s.gen && s.live
  }

  // ---------------------------------------------------------------- what the handlers do

  function Pending(inFlight: map<nat, nat>, g: nat): nat {
    if g in inFlight then inFlight[g] else 0
  }

  function Settled(inFlight: map<nat, nat>, g: nat): map<nat, nat> {
    if Pending(inFlight, g) <= 1 then inFlight - {g} else inFlight[g := Pending(inFlight, g) - 1]
  }

  function ClearTimer(s: State): State {
    if s.timer.None? then s else s.(armed := s.armed - {s.timer.value}, timer := None)
  }

  function RunTick(s: State, g: nat): State {
    s.(lastTick := s.clock, inFlight := s.inFlight[g := Pending(s.inFlight, g) + 1],
       polls := s.polls + multiset{g}, starts := s.starts + [PollStart(g, s.clock)])
  }

  function Schedule(s: State, g: nat): State {
    if g != s.gen || !s.live then s
    else s.(timer := Some(s.nextHandle), armed := s.armed[s.nextHandle := Alarm(g, s.clock + s.interval)],
            nextHandle := s.nextHandle + 1)
  }

  function Fired(s: State, handle: nat, hidden: bool): State
    requires handle in s.armed
  {
    var g := s.armed[handle].gen;
    var s1 := s.(armed := s.armed - {handle}, timer := None);
    if g != s.gen || !s.live then s1
    else if hidden then Schedule(s1, g)
    else RunTick(s1, g)
  }

  function VisibilityChanged(s: State, hidden: bool): State {
    if hidden || !s.live then s
    else if s.clock - s.lastTick < s.interval then s
    else if Pending(s.inFlight, s.gen) > 0 then s
    else RunTick(ClearTimer(s), s.gen)
  }

  function Launch(s: State, g: nat): State {
    RunTick(s.(live := true, listening := true), g)
  }

  function Stopped(s: State): State {
    ClearTimer(s.(gen := s.gen + 1, live := false)).(listening := false)
  }

  function Started(s: State, gated: bool): State {
    Restarted(Stopped(s), gated)
  }

  function Restarted(s: State, gated: bool): State {
    var s1 := s.(gen := s.gen + 1);
    if gated then s1.(gates := s1.gates + {s1.gen}) else Launch(s1, s1.gen)
  }

  function GateResolved(s: State, g: nat, proceed: bool): State {
    var s1 := s.(gates := s.gates - {g});
    if g != s.gen || !proceed then s1 else Launch(s1, g)
  }

  function PollSettled(s: State, g: nat): State {
    Schedule(s.(polls := s.polls - multiset{g}, inFlight := Settled(s.inFlight, g)), g)
  }

  // ---------------------------------------------------------------- runs

  datatype Event =
    | TimerFires(handle: nat, hidden: bool)
    | VisibilityChange(hidden: bool)
    | Start(gated: bool)
    | GateResolves(g: nat, proceed: bool)
    | PollSettles(g: nat)
    | Stop
    | TimePasses(now: int)

  /** Time never runs backwards, and a timer never fires early. */
  predicate Enabled(s: State, e: Event) {
    match e
    case TimerFires(handle, _) => handle in s.armed && s.armed[handle].due <= s.clock
    case VisibilityChange(_) => s.listening
    case Start(_) => true
    case GateResolves(g, _) => g in s.gates
    case PollSettles(g) => g in s.polls
    case Stop => true
    case TimePasses(now) => s.clock <= now
  }

  function Step(s: State, e: Event): State
    requires Enabled(s, e)
  {
    match e
    case TimerFires(handle, hidden) => Fired(s, handle, hidden)
    case VisibilityChange(hidden) => VisibilityChanged(s, hidden)
    case Start(gated) => Started(s, gated)
    case GateResolves(g, proceed) => GateResolved(s, g, proceed)
    case PollSettles(g) => PollSettled(s, g)
    case Stop => Stopped(s)
    case TimePasses(now) => s.(clock := now)
  }

  predicate IsRun(s: State, es: seq<Event>)
    decreases |es|
  {
    es == [] || (Enabled(s, es[0]) && IsRun(Step(s, es[0]), es[1..]))
  }

  function Run(s: State, es: seq<Event>): State
    requires IsRun(s, es)
    decreases |es|
  {
    if es == [] then s else Run(Step(s, es[0]), es[1..])
  }

  // ---------------------------------------------------------------- the invariant

  /** How many things will carry the loop on: the armed timer, and this generation's polls in flight. */
  function Chains(s: State): nat {
    |s.armed| + s.polls[s.gen]
  }

  ghost predicate TimerInv(s: State) {
    && s.armed.Keys == (if s.timer.Some? then {s.timer.value} else {})
    && (s.timer.Some? ==>
          && s.timer.value < s.nextHandle
          && s.armed[s.timer.value].gen == s.gen
          && s.lastTick + s.interval <= s.armed[s.timer.value].due)
  }

  ghost predicate ChainInv(s: State) {
    && (if s.live then s.timer.Some? <==> s.polls[s.gen] == 0 else s.timer.None? && s.polls[s.gen] == 0)
    && s.polls[s.gen] <= 1
    && (s.live ==> s.gen !in s.gates)
    && (forall g | g in s.gates :: g <= s.gen)
    && (forall g | g in s.polls :: g <= s.gen)
  }

  ghost predicate CountInv(s: State) {
    && (forall g: nat :: Pending(s.inFlight, g) == s.polls[g])
    && (forall g | g in s.inFlight :: s.inFlight[g] > 0)
  }

  ghost predicate CadenceInv(s: State) {
    && (s.live ==> s.lastTick <= s.clock)
    && (forall i | 0 <= i < |s.starts| :: s.starts[i].gen <= s.gen)
    && (forall i | 0 <= i < |s.starts| && s.starts[i].gen == s.gen :: s.live && s.starts[i].at <= s.lastTick)
    && Spaced(s.starts, s.interval)
  }

  /** Any two polls of one generation started at least the interval apart. */
  ghost predicate Spaced(starts: seq<PollStart>, interval: nat) {
    forall i, j | 0 <= i < j < |starts| && starts[i].gen == starts[j].gen :: starts[i].at + interval <= starts[j].at
  }

  ghost predicate Inv(s: State) {
    TimerInv(s) && ChainInv(s) && CountInv(s) && CadenceInv(s)
  }

  /** Starting a poll of the live generation keeps everything, if none is in flight and the interval has passed. */
  lemma RunTickKeepsInv(s: State)
    requires TimerInv(s) && CountInv(s) && CadenceInv(s) && s.live
    requires s.timer.None? && s.polls[s.gen] == 0 && s.gen !in s.gates
    requires forall g | g in s.gates :: g <= s.gen
    requires forall g | g in s.polls :: g <= s.gen
    requires forall i | 0 <= i < |s.starts| && s.starts[i].gen == s.gen :: s.starts[i].at + s.interval <= s.clock
    ensures Inv(RunTick(s, s.gen))
  {
    var next := RunTick(s, s.gen);
    forall g | g in next.polls ensures g <= next.gen {
      assert g in s.polls || g == s.gen;
    }
  }

  lemma ScheduleKeepsInv(s: State, g: nat)
    requires TimerInv(s) && CountInv(s) && CadenceInv(s) && s.live && g == s.gen
    requires s.timer.None? && s.polls[s.gen] == 0 && s.gen !in s.gates
    requires forall h | h in s.gates :: h <= s.gen
    requires forall h | h in s.polls :: h <= s.gen
    ensures Inv(Schedule(s, g))
  {
    var next := Schedule(s, g);
    assert next.armed.Keys == {s.nextHandle};
  }

  lemma FiredKeepsInv(s: State, handle: nat, hidden: bool)
    requires Inv(s) && handle in s.armed && s.armed[handle].due <= s.clock
    ensures Inv(Fired(s, handle, hidden))
  {
    var s1 := s.(armed := s.armed - {handle}, timer := None);
    assert s1.armed.Keys == {};
    if hidden {
      ScheduleKeepsInv(s1, s.gen);
    } else {
      RunTickKeepsInv(s1);
    }
  }

  lemma VisibilityKeepsInv(s: State, hidden: bool)
    requires Inv(s)
    ensures Inv(VisibilityChanged(s, hidden))
  {
    if !hidden && s.live && s.clock - s.lastTick >= s.interval && Pending(s.inFlight, s.gen) == 0 {
      var s1 := ClearTimer(s);
      assert s1.armed.Keys == {};
      RunTickKeepsInv(s1);
    }
  }

  lemma StoppedKeepsInv(s: State)
    requires Inv(s)
    ensures Inv(Stopped(s)) && !Stopped(s).live && Stopped(s).armed == map[]
  {
    var next := Stopped(s);
    assert next.armed.Keys == {};
    assert s.gen + 1 !in s.polls;
  }

  lemma LaunchKeepsInv(s: State)
    requires Inv(s) && !s.live && s.gen !in s.gates
    ensures Inv(Launch(s, s.gen))
  {
    var next := Launch(s, s.gen);
    forall g | g in next.polls ensures g <= next.gen {
      assert g in s.polls || g == s.gen;
    }
  }

  lemma StartedKeepsInv(s: State, gated: bool)
    requires Inv(s)
    ensures Inv(Started(s, gated))
  {
    StoppedKeepsInv(s);
    Restarts(Stopped(s), gated);
  }

  lemma Restarts(s1: State, gated: bool)
    requires Inv(s1) && !s1.live && s1.armed == map[]
    ensures Inv(Restarted(s1, gated))
  {
    NextGeneration(s1);
    var s2 := s1.(gen := s1.gen + 1);
    if gated {
      GateOpens(s2);
    } else {
      LaunchKeepsInv(s2);
    }
  }

  lemma GateOpens(s: State)
    requires Inv(s) && !s.live
    ensures Inv(s.(gates := s.gates + {s.gen}))
  {
  }

  lemma NextGeneration(s: State)
    requires Inv(s) && !s.live && s.armed == map[]
    ensures Inv(s.(gen := s.gen + 1)) && s.gen + 1 !in s.gates
  {
    var next := s.(gen := s.gen + 1);
    assert next.gen !in s.polls && s.timer.None?;
  }

  lemma PollSettledKeepsInv(s: State, g: nat)
    requires Inv(s) && g in s.polls
    ensures Inv(PollSettled(s, g))
  {
    var s1 := s.(polls := s.polls - multiset{g}, inFlight := Settled(s.inFlight, g));
    assert forall h: nat :: Pending(s1.inFlight, h) == s1.polls[h];
    assert forall h | h in s1.polls :: h in s.polls;
    if g == s.gen && s.live {
      ScheduleKeepsInv(s1, g);
    }
  }

  lemma StepKeepsInv(s: State, e: Event)
    requires Inv(s) && Enabled(s, e)
    ensures Inv(Step(s, e))
  {
    match e
    case TimerFires(handle, hidden) => FiredKeepsInv(s, handle, hidden);
    case VisibilityChange(hidden) => VisibilityKeepsInv(s, hidden);
    case Start(gated) => StartedKeepsInv(s, gated);
    case GateResolves(g, proceed) =>
      if g == s.gen && proceed {
        LaunchKeepsInv(s.(gates := s.gates - {g}));
      }
    case PollSettles(g) => PollSettledKeepsInv(s, g);
    case Stop => StoppedKeepsInv(s);
    case TimePasses(_) =>
  }

  lemma {:induction false} RunKeepsInv(s: State, es: seq<Event>)
    requires Inv(s) && IsRun(s, es)
    ensures Inv(Run(s, es))
    decreases |es|
  {
    if es != [] {
      StepKeepsInv(s, es[0]);
      RunKeepsInv(Step(s, es[0]), es[1..]);
    }
  }

  lemma {:induction false} GenerationsGrow(s: State, es: seq<Event>)
    requires IsRun(s, es)
    ensures s.gen <= Run(s, es).gen && Run(s, es).interval == s.interval
    decreases |es|
  {
    if es != [] {
      GenerationsGrow(Step(s, es[0]), es[1..]);
    }
  }

  // ---------------------------------------------------------------- main results

  /**
   A live loop always has exactly one thing carrying it on: the timer it knows, or one poll. A stopped one has none.
   */
  lemma ExactlyOneChain(interval: nat, now: int, es: seq<Event>)
    requires IsRun(Init(interval, now), es)
    ensures var s := Run(Init(interval, now), es);
            && Chains(s) == (if s.live then 1 else 0)
            && (forall handle | handle in s.armed :: s.timer == Some(handle) && s.armed[handle].gen == s.gen)
            && (forall g: nat :: Pending(s.inFlight, g) == s.polls[g])
  {
    RunKeepsInv(Init(interval, now), es);
    var s := Run(Init(interval, now), es);
    assert |s.armed| == |s.armed.Keys|;
  }

  /** Within one generation no two polls start closer together than the interval. */
  lemma PollsAreSpaced(interval: nat, now: int, es: seq<Event>)
    requires IsRun(Init(interval, now), es)
    ensures Spaced(Run(Init(interval, now), es).starts, interval)
  {
    RunKeepsInv(Init(interval, now), es);
    GenerationsGrow(Init(interval, now), es);
  }

  /** What the loop remembers of its last poll, and that it listens exactly while it is live. */
  ghost predicate LastInv(s: State) {
    && (s.live <==> s.listening)
    && (s.starts != [] ==> s.lastTick == s.starts[|s.starts| - 1].at)
    && (s.live ==> s.starts != [] && s.starts[|s.starts| - 1].gen == s.gen)
  }

  lemma TickKeepsLast(s: State)
    requires s.live && s.listening
    ensures LastInv(RunTick(s, s.gen))
  {
  }

  /** A step that starts no poll, and at most ends the loop. */
  lemma QuietKeepsLast(s: State, next: State)
    requires LastInv(s) && next.starts == s.starts && next.lastTick == s.lastTick && (next.live <==> next.listening)
    requires next.live ==> s.live && next.gen == s.gen
    ensures LastInv(next)
  {
  }

  lemma FiredKeepsLast(s: State, handle: nat, hidden: bool)
    requires Inv(s) && LastInv(s) && handle in s.armed
    ensures LastInv(Fired(s, handle, hidden))
  {
    var s1 := s.(armed := s.armed - {handle}, timer := None);
    assert s.armed[handle].gen == s.gen;
    if hidden || !s.live {
      QuietKeepsLast(s, Fired(s, handle, hidden));
    } else {
      TickKeepsLast(s1);
    }
  }

  lemma VisibilityKeepsLast(s: State, hidden: bool)
    requires LastInv(s)
    ensures LastInv(VisibilityChanged(s, hidden))
  {
    if VisibilityChanged(s, hidden) != s {
      TickKeepsLast(ClearTimer(s));
    }
  }

  lemma StartedKeepsLast(s: State, gated: bool)
    requires LastInv(s)
    ensures LastInv(Started(s, gated))
  {
    var s1 := Stopped(s).(gen := s.gen + 2);
    if gated {
      QuietKeepsLast(s, Started(s, gated));
    } else {
      TickKeepsLast(s1.(live := true, listening := true));
    }
  }

  lemma StepKeepsLast(s: State, e: Event)
    requires Inv(s) && LastInv(s) && Enabled(s, e)
    ensures LastInv(Step(s, e))
  {
    match e
    case TimerFires(handle, hidden) => FiredKeepsLast(s, handle, hidden);
    case VisibilityChange(hidden) => VisibilityKeepsLast(s, hidden);
    case Start(gated) => StartedKeepsLast(s, gated);
    case GateResolves(g, proceed) =>
      if g == s.gen && proceed {
        TickKeepsLast(s.(gates := s.gates - {g}, live := true, listening := true));
      }
    case PollSettles(g) => QuietKeepsLast(s, PollSettled(s, g));
    case Stop => QuietKeepsLast(s, Stopped(s));
    case TimePasses(now) => QuietKeepsLast(s, s.(clock := now));
  }

  lemma {:induction false} RunKeepsLast(s: State, es: seq<Event>)
    requires Inv(s) && LastInv(s) && IsRun(s, es)
    ensures LastInv(Run(s, es)) && Run(s, es).interval == s.interval
    decreases |es|
  {
    if es != [] {
      StepKeepsInv(s, es[0]);
      StepKeepsLast(s, es[0]);
      RunKeepsLast(Step(s, es[0]), es[1..]);
    }
  }

  /** The interval has passed since the last poll was started. */
  predicate Overdue(s: State) {
    s.starts != [] && s.starts[|s.starts| - 1].at + s.interval <= s.clock
  }

  /**
   When polls start. A timer that fires starts one if the tab is visible. A tab that becomes visible catches up if the
   loop is live, the interval has passed since the last start, and no poll of this generation is in flight. start()
   polls unless it is gated, and a gate that lets its generation through does, if that is still the newest. Nothing else
   starts a poll.
   */
  lemma PollsExactly(interval: nat, now: int, es: seq<Event>, e: Event)
    requires IsRun(Init(interval, now), es) && Enabled(Run(Init(interval, now), es), e)
    ensures var s := Run(Init(interval, now), es);
            Step(s, e).starts ==
              match e
              case TimerFires(_, hidden) => if hidden then s.starts else s.starts + [PollStart(s.gen, s.clock)]
              case VisibilityChange(hidden) =>
                if !hidden && s.live && Overdue(s) && s.polls[s.gen] == 0
                then s.starts + [PollStart(s.gen, s.clock)] else s.starts
              case Start(gated) => if gated then s.starts else s.starts + [PollStart(s.gen + 2, s.clock)]
              case GateResolves(g, proceed) =>
                if proceed && g == s.gen then s.starts + [PollStart(s.gen, s.clock)] else s.starts
              case PollSettles(_) => s.starts
              case Stop => s.starts
              case TimePasses(_) => s.starts
  {
    RunKeepsInv(Init(interval, now), es);
    RunKeepsLast(Init(interval, now), es);
    var s := Run(Init(interval, now), es);
    match e
    case TimerFires(handle, hidden) => FiredPolls(s, handle, hidden);
    case VisibilityChange(hidden) => VisibilityPolls(s, hidden);
    case Start(gated) => StartPolls(s, gated);
    case _ =>
  }

  lemma FiredPolls(s: State, handle: nat, hidden: bool)
    requires Inv(s) && handle in s.armed
    ensures Fired(s, handle, hidden).starts ==
              if hidden then s.starts else s.starts + [PollStart(s.gen, s.clock)]
  {
    assert s.armed[handle].gen == s.gen && s.live;
  }

  lemma VisibilityPolls(s: State, hidden: bool)
    requires Inv(s) && LastInv(s)
    ensures VisibilityChanged(s, hidden).starts ==
              if !hidden && s.live && Overdue(s) && s.polls[s.gen] == 0
              then s.starts + [PollStart(s.gen, s.clock)] else s.starts
  {
    assert Pending(s.inFlight, s.gen) == s.polls[s.gen];
  }

  lemma StartPolls(s: State, gated: bool)
    ensures Started(s, gated).starts == if gated then s.starts else s.starts + [PollStart(s.gen + 2, s.clock)]
  {
    assert Stopped(s).gen == s.gen + 1 && Stopped(s).starts == s.starts && Stopped(s).clock == s.clock;
  }

  /** The only timer armed is for this generation, the interval from now. */
  ghost predicate ArmedAfresh(s: State, clock: int, interval: nat) {
    s.timer.Some? && s.armed == map[s.timer.value := Alarm(s.gen, clock + interval)]
  }

  /**
   When timers are armed. A timer that fires unseen, and a settled poll of the live generation, arm the one timer there
   is, for exactly the interval from now. A timer that fires in a visible tab, a catch-up, start() and stop() leave
   none; anything else leaves what is armed alone.
   */
  lemma ArmsExactly(interval: nat, now: int, es: seq<Event>, e: Event)
    requires IsRun(Init(interval, now), es) && Enabled(Run(Init(interval, now), es), e)
    ensures var s := Run(Init(interval, now), es);
            var next := Step(s, e);
            match e
            case TimerFires(_, hidden) => if hidden then ArmedAfresh(next, s.clock, interval) else next.armed == map[]
            case VisibilityChange(_) => next.armed == if next.starts == s.starts then s.armed else map[]
            case Start(_) => next.armed == map[]
            case GateResolves(_, _) => next.armed == s.armed
            case PollSettles(g) =>
              if s.live && g == s.gen then ArmedAfresh(next, s.clock, interval) else next.armed == s.armed
            case Stop => next.armed == map[]
            case TimePasses(_) => next.armed == s.armed
  {
    RunKeepsInv(Init(interval, now), es);
    RunKeepsLast(Init(interval, now), es);
    var s := Run(Init(interval, now), es);
    match e
    case TimerFires(handle, hidden) => TimerWasTheOnlyOne(s, handle, hidden);
    case VisibilityChange(_) => CatchUpDisarms(s);
    case PollSettles(g) => SettledArms(s, g);
    case Start(gated) => StoppedKeepsInv(s);
    case Stop => StoppedKeepsInv(s);
    case _ =>
  }

  lemma TimerWasTheOnlyOne(s: State, handle: nat, hidden: bool)
    requires Inv(s) && handle in s.armed
    ensures if hidden then ArmedAfresh(Fired(s, handle, hidden), s.clock, s.interval)
            else Fired(s, handle, hidden).armed == map[]
  {
    assert s.armed.Keys == {handle} && s.armed[handle].gen == s.gen;
    assert (s.armed - {handle}).Keys == {};
    assert s.armed - {handle} == map[];
  }

  lemma CatchUpDisarms(s: State)
    requires Inv(s)
    ensures ClearTimer(s).armed == map[]
  {
    assert ClearTimer(s).armed.Keys == {};
  }

  lemma SettledArms(s: State, g: nat)
    requires Inv(s) && g in s.polls
    ensures if s.live && g == s.gen then ArmedAfresh(PollSettled(s, g), s.clock, s.interval)
            else PollSettled(s, g).armed == s.armed
  {
    if s.live && g == s.gen {
      assert s.armed.Keys == {};
      assert s.armed == map[];
    }
  }

  /** The tab's visibility is listened to exactly while the loop is live. */
  lemma ListensWhileLive(interval: nat, now: int, es: seq<Event>, hidden: bool)
    requires IsRun(Init(interval, now), es)
    ensures var s := Run(Init(interval, now), es); Enabled(s, VisibilityChange(hidden)) <==> s.live
  {
    RunKeepsLast(Init(interval, now), es);
  }

  /** Gates are opened by gated starts alone and closed by resolving. */
  lemma GatesExactly(s: State, e: Event)
    requires Enabled(s, e)
    ensures Step(s, e).gates ==
              match e
              case Start(gated) => if gated then s.gates + {s.gen + 2} else s.gates
              case GateResolves(g, _) => s.gates - {g}
              case _ => s.gates
  {
    if e.Start? {
      StartsAnew(s, e.gated);
    }
  }

  lemma StartsAnew(s: State, gated: bool)
    ensures var next := Started(s, gated);
            && next.gates == (if gated then s.gates + {s.gen + 2} else s.gates)
            && next.gen == s.gen + 2 && next.clock == s.clock
  {
    var s1 := Stopped(s);
    assert s1.gates == s.gates && s1.gen == s.gen + 1 && s1.clock == s.clock;
  }

  /** Only time moves the clock, and only start() and stop() make a new generation. */
  lemma ClockExactly(s: State, e: Event)
    requires Enabled(s, e)
    ensures Step(s, e).clock == if e.TimePasses? then e.now else s.clock
    ensures Step(s, e).gen == if e.Start? then s.gen + 2 else if e.Stop? then s.gen + 1 else s.gen
  {
    if e.Start? {
      StartsAnew(s, e.gated);
    }
  }

  /** The loop does poll: start() does, and so does every visible deadline, the interval after the last poll settled. */
  lemma PollsOnAndOn(interval: nat, now: int)
    ensures var es := [Start(false), PollSettles(2), TimePasses(now + interval), TimerFires(0, false)];
            && IsRun(Init(interval, now), es)
            && Run(Init(interval, now), es).starts == [PollStart(2, now), PollStart(2, now + interval)]
  {
    var s0 := Init(interval, now);
    var s1 := Step(s0, Start(false));
    assert s1.starts == [PollStart(2, now)] && s1.live && s1.gen == 2 && 2 in s1.polls;
    var s2 := Step(s1, PollSettles(2));
    assert s2.armed == map[0 := Alarm(2, now + interval)] && s2.starts == s1.starts;
    var s3 := Step(s2, TimePasses(now + interval));
    var s4 := Step(s3, TimerFires(0, false));
    assert s4.starts == [PollStart(2, now)] + [PollStart(2, now + interval)];
    RunCons(s3, TimerFires(0, false), []);
    RunCons(s2, TimePasses(now + interval), [TimerFires(0, false)]);
    RunCons(s1, PollSettles(2), [TimePasses(now + interval), TimerFires(0, false)]);
    RunCons(s0, Start(false), [PollSettles(2), TimePasses(now + interval), TimerFires(0, false)]);
    assert [Start(false)] + [PollSettles(2), TimePasses(now + interval), TimerFires(0, false)]
        == [Start(false), PollSettles(2), TimePasses(now + interval), TimerFires(0, false)];
    assert [PollSettles(2)] + [TimePasses(now + interval), TimerFires(0, false)]
        == [PollSettles(2), TimePasses(now + interval), TimerFires(0, false)];
    assert [TimePasses(now + interval)] + [TimerFires(0, false)] == [TimePasses(now + interval), TimerFires(0, false)];
    assert [TimerFires(0, false)] + [] == [TimerFires(0, false)];
  }

  lemma RunCons(s: State, e: Event, es: seq<Event>)
    requires Enabled(s, e) && IsRun(Step(s, e), es)
    ensures IsRun(s, [e] + es) && Run(s, [e] + es) == Run(Step(s, e), es)
  {
    assert ([e] + es)[1..] == es;
  }

  /** start() and a gate that lets it through make the loop live; stop(), and nothing else, ends it. */
  lemma LiveExactly(interval: nat, now: int, es: seq<Event>, e: Event)
    requires IsRun(Init(interval, now), es) && Enabled(Run(Init(interval, now), es), e)
    ensures var s := Run(Init(interval, now), es);
            Step(s, e).live <==>
              match e
              case Start(gated) => !gated
              case GateResolves(g, proceed) => s.live || (proceed && g == s.gen)
              case Stop => false
              case _ => s.live
  {
  }

  predicate NoStart(es: seq<Event>) {
    forall i | 0 <= i < |es| :: !es[i].Start?
  }

  /** After stop() no poll starts, no timer is armed and nothing is current, until the next start(). */
  lemma StopIsSilent(interval: nat, now: int, before: seq<Event>, after: seq<Event>)
    requires IsRun(Init(interval, now), before)
    requires IsRun(Stopped(Run(Init(interval, now), before)), after) && NoStart(after)
    ensures var s := Run(Init(interval, now), before);
            var t := Run(Stopped(s), after);
            && t.starts == s.starts && t.armed == map[]
            && forall g: nat :: !IsCurrent(t, g)
  {
    RunKeepsInv(Init(interval, now), before);
    var s := Run(Init(interval, now), before);
    StoppedKeepsInv(s);
    StaysSilent(Stopped(s), after);
  }

  /** No gate of the current generation can revive a stopped loop. */
  lemma {:induction false} StaysSilent(s: State, es: seq<Event>)
    requires !s.live && s.armed == map[] && (forall g | g in s.gates :: g < s.gen) && IsRun(s, es) && NoStart(es)
    ensures var t := Run(s, es);
            !t.live && t.armed == map[] && t.starts == s.starts
    decreases |es|
  {
    if es != [] {
      var next := Step(s, es[0]);
      assert es[0] in es;
      assert !next.live && next.armed == map[] && next.starts == s.starts;
      StaysSilent(next, es[1..]);
    }
  }

  /** A generation that was superseded is never current again. */
  lemma OldGenerationsStayDead(s: State, es: seq<Event>, g: nat)
    requires g < s.gen && IsRun(s, es)
    ensures !IsCurrent(Run(s, es), g)
  {
    GenerationsGrow(s, es);
  }

  // ---------------------------------------------------------------- the composable

  /** usePollingLoop's closure: its variables, and the parts of the browser its handlers touch. */
  class Loop {
    const interval: nat
    var timer: Option<nat>
    var gen: nat
    var live: bool
    var listening: bool
    var lastTick: int
    var inFlight: map<nat, nat>
    var armed: map<nat, Alarm>
    var nextHandle: nat
    ghost var polls: multiset<nat>
    ghost var gates: set<nat>
    ghost var starts: seq<PollStart>
    var clock: int

    ghost function View(): State
      reads this
    {
      State(interval, timer, gen, live, listening, lastTick, inFlight, armed, nextHandle, polls, gates, starts, clock)
    }

    constructor (interval: nat, now: int)
      ensures View() == Init(interval, now)
    {
      this.interval := interval;
      timer, gen, live, listening, lastTick, inFlight := None, 0, false, false, 0, map[];
      armed, nextHandle, clock := map[], 0, now;
      polls, gates, starts := multiset{}, {}, [];
    }

    method CancelTimer()
      modifies this
      ensures View() == ClearTimer(old(View()))
    {
      if timer.Some? {
        armed := armed - {timer.value};
        timer := None;
      }
    }

    method Tick(g: nat)
      modifies this
      ensures View() == RunTick(old(View()), g)
    {
      lastTick := clock;
      inFlight := inFlight[g := (if g in inFlight then inFlight[g] else 0) + 1];
      polls := polls + multiset{g};
      starts := starts + [PollStart(g, clock)];
    }

    method Rearm(g: nat)
      modifies this
      ensures View() == Schedule(old(View()), g)
    {
      if g != gen || !live {
        return;
      }
      timer := Some(nextHandle);
      armed := armed[nextHandle := Alarm(g, clock + interval)];
      nextHandle := nextHandle + 1;
    }

    method OnTimer(handle: nat, hidden: bool)
      requires handle in armed
      modifies this
      ensures View() == Fired(old(View()), handle, hidden)
    {
      var g := armed[handle].gen;
      armed := armed - {handle};
      timer := None;
      if g != gen || !live {
        return;
      }
      if hidden {
        Rearm(g);
        return;
      }
      Tick(g);
    }

    method OnVisibilityChange(hidden: bool)
      modifies this
      ensures View() == VisibilityChanged(old(View()), hidden)
    {
      if hidden || !live {
        return;
      }
      if clock - lastTick < interval {
        return;
      }
      if gen in inFlight && inFlight[gen] > 0 {
        return;
      }
      var g := gen;
      CancelTimer();
      Tick(g);
    }

    /** The `.finally` of a poll: count it out, then re-arm. */
    method OnPollSettled(g: nat)
      modifies this
      ensures View() == PollSettled(old(View()), g)
    {
      polls := polls - multiset{g};
      var left: int := (if g in inFlight then inFlight[g] else 0) as int - 1;
      if left <= 0 {
        inFlight := inFlight - {g};
      } else {
        inFlight := inFlight[g := left];
      }
      Rearm(g);
    }

    method Stop()
      modifies this
      ensures View() == Stopped(old(View()))
    {
      gen := gen + 1;
      live := false;
      CancelTimer();
      listening := false;
    }

    method Start(gated: bool)
      modifies this
      ensures View() == Started(old(View()), gated)
    {
      Stop();
      gen := gen + 1;
      if gated {
        gates := gates + {gen};
        return;
      }
      live := true;
      listening := true;
      Tick(gen);
    }

    method OnGateResolved(g: nat, proceed: bool)
      modifies this
      ensures View() == GateResolved(old(View()), g, proceed)
    {
      gates := gates - {g};
      if g != gen {
        return;
      }
      if !proceed {
        return;
      }
      live := true;
      listening := true;
      Tick(g);
    }
  }
}
