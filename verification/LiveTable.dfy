/**
 The live table as a whole: the loads of web/src/composables/useResourceList.ts and the watch it starts behind a
 complete one (web/src/composables/useWatch.ts), in one transition system.

 A refresh stops the watch, loads, and starts the watch again; nextPage and the search stop it and load. The loads
 settle in any order, and loops of the watch that were stopped go on taking steps while they are in flight.
 */
module LiveTable {
  import opened Wrappers

  import ResourceRows
  import WatchStream

  type Row = ResourceRows.Row
  type WatchEvent = ResourceRows.WatchEvent

  /** Who awaits a load: refresh(), refresh() when there was no resource to load, or a caller that starts no watch. */
  datatype Caller = Refresh | EmptyRefresh | Page

  datatype State = State(
    list: ResourceRows.Listing,
    watch: WatchStream.State,
    loads: map<nat, Caller>,   // the loads in flight, by generation
    base: seq<Row>,            // what the last walk brought; nothing while one is in flight or after a failed one
    mark: nat)                 // how many events had been delivered by then

  const Fresh := State(ResourceRows.Blank, WatchStream.Fresh, map[], [], 0)

  datatype Event =
    | Refreshes(hasRef: bool)
    | Pages(hasRef: bool)                              // nextPage, or a search that walks the collection
    | Settles(gen: nat, walked: Option<ResourceRows.Walk>, url: bool)
    | WatchSteps(e: WatchStream.Event, hasRef: bool)   // hasRef: for the refresh that a stale watch asks for
    | Leaves                                           // watcher.stop() alone

  predicate Enabled(s: State, e: Event) {
    match e
    case Settles(gen, _, _) => gen in s.loads
    case WatchSteps(we, _) => !we.Start? && !we.Stop? && WatchStream.Enabled(s.watch, we)
    case _ => true
  }

  /** stop(), then load() up to its request. */
  function Begun(s: State, caller: Caller): State {
    var list := ResourceRows.Begun(s.list, !caller.EmptyRefresh?);
    var s1 := s.(watch := WatchStream.Stopped(s.watch), list := list, loads := s.loads[list.loadGen := caller]);
    if caller.EmptyRefresh? then s1 else s1.(base := [], mark := |s.watch.delivered|)
  }

  /** stop(), then load() without a resource: it overtakes the load in flight, and nothing comes of it. */
  function Overtaken(s: State): State {
    s.(watch := WatchStream.Stopped(s.watch), list := ResourceRows.Begun(s.list, false))
  }

  function RefreshCaller(hasRef: bool): Caller {
    if hasRef then Refresh else EmptyRefresh
  }

  /** refresh() behind its load: the watch starts only on a complete collection. */
  function Watched(parse: WatchStream.Parser, s: State, url: bool): State {
    if s.list.failed || s.list.version == "" || s.list.token != "" then s
    else s.(watch := WatchStream.Step(parse, s.watch, WatchStream.Start(url)))
  }

  /** A load settles; one that was superseded is dropped, and so is what its caller would have done behind it. */
  function Settled(parse: WatchStream.Parser, s: State, gen: nat, walked: Option<ResourceRows.Walk>, url: bool): State
    requires gen in s.loads
  {
    var s1 := s.(loads := s.loads - {gen});
    if gen != s.list.loadGen then s1
    else
      match s.loads[gen]
      case EmptyRefresh => Watched(parse, s1, url)
      case Page => Walked(s1, walked)
      case Refresh => Watched(parse, Walked(s1, walked), url)
  }

  function Walked(s: State, walked: Option<ResourceRows.Walk>): State {
    s.(list := ResourceRows.Settled(s.list, s.list.loadGen, walked), mark := |s.watch.delivered|,
       base := match walked case Some(w) => w.rows case None => [])
  }

  function AppliedAll(list: ResourceRows.Listing, events: seq<WatchEvent>): ResourceRows.Listing {
    if events == [] then list
    else ResourceRows.Applied(AppliedAll(list, events[..|events| - 1]), events[|events| - 1])
  }

  /** A step of the watch: its events go to the table, and a stale watch asks for a refresh. */
  function WatchStepped(parse: WatchStream.Parser, s: State, e: WatchStream.Event, hasRef: bool): State
    requires WatchStream.Enabled(s.watch, e)
  {
    var next := WatchStream.Step(parse, s.watch, e);
    var s1 := s.(watch := next, list := AppliedAll(s.list, Delivered(s.watch, next)));
    if next.stale > s.watch.stale then Begun(s1, RefreshCaller(hasRef)) else s1
  }

  function Delivered(s: WatchStream.State, next: WatchStream.State): seq<WatchEvent> {
    if |s.delivered| <= |next.delivered| then next.delivered[|s.delivered|..] else []
  }

  function Step(parse: WatchStream.Parser, s: State, e: Event): State
    requires Enabled(s, e)
  {
    match e
    case Refreshes(hasRef) => Begun(s, RefreshCaller(hasRef))
    case Pages(hasRef) => if hasRef then Begun(s, Page) else Overtaken(s)
    case Settles(gen, walked, url) => Settled(parse, s, gen, walked, url)
    case WatchSteps(we, hasRef) => WatchStepped(parse, s, we, hasRef)
    case Leaves => s.(watch := WatchStream.Stopped(s.watch))
  }

  predicate IsRun(parse: WatchStream.Parser, s: State, es: seq<Event>)
    decreases |es|
  {
    es == [] || (Enabled(s, es[0]) && IsRun(parse, Step(parse, s, es[0]), es[1..]))
  }

  function Run(parse: WatchStream.Parser, s: State, es: seq<Event>): State
    requires IsRun(parse, s, es)
    decreases |es|
  {
    if es == [] then s else Run(parse, Step(parse, s, es[0]), es[1..])
  }

  // ---------------------------------------------------------------- the invariant

  /** The newest load is still in flight. */
  predicate Loading(s: State) {
    s.list.loadGen in s.loads
  }

  /** The table is the last walk with the events since replayed on it. */
  ghost predicate TableInv(s: State) {
    && s.mark <= |s.watch.delivered|
    && s.list.rows == ResourceRows.Replayed(s.base, WatchStream.Changes(s.watch.delivered[s.mark..]))
  }

  /** While the newest load is in flight no watch runs; if it is of a resource, nothing was delivered since it began. */
  ghost predicate QuietInv(s: State) {
    && (forall gen | gen in s.loads :: gen <= s.list.loadGen)
    && (Loading(s) ==> s.watch.stopped)
    && (Loading(s) && !s.loads[s.list.loadGen].EmptyRefresh? ==>
          s.base == [] && s.mark == |s.watch.delivered| && !s.list.failed)
  }

  ghost predicate Inv(parse: WatchStream.Parser, s: State) {
    WatchStream.Inv(parse, s.watch) && TableInv(s) && QuietInv(s)
  }

  lemma NothingSince(s: State)
    requires s.mark == |s.watch.delivered| && s.list.rows == s.base
    ensures TableInv(s)
  {
    assert s.watch.delivered[s.mark..] == [];
  }

  lemma BegunKeepsInv(parse: WatchStream.Parser, s: State, caller: Caller)
    requires WatchStream.Inv(parse, s.watch) && TableInv(s) && forall gen | gen in s.loads :: gen <= s.list.loadGen
    ensures Inv(parse, Begun(s, caller))
  {
    WatchStream.StoppedKeepsInv(parse, s.watch);
    if !caller.EmptyRefresh? {
      NothingSince(Begun(s, caller));
    }
  }

  lemma WatchedKeepsInv(parse: WatchStream.Parser, s: State, url: bool)
    requires Inv(parse, s) && !Loading(s)
    ensures Inv(parse, Watched(parse, s, url))
  {
    WatchStream.StepKeepsInv(parse, s.watch, WatchStream.Start(url));
  }

  lemma SettledKeepsInv(parse: WatchStream.Parser, s: State, gen: nat, walked: Option<ResourceRows.Walk>, url: bool)
    requires Inv(parse, s) && gen in s.loads
    ensures Inv(parse, Settled(parse, s, gen, walked, url))
  {
    var s1 := s.(loads := s.loads - {gen});
    if gen == s.list.loadGen {
      NothingSince(Walked(s1, walked));
      if s.loads[gen].EmptyRefresh? {
        WatchedKeepsInv(parse, s1, url);
      } else if s.loads[gen].Refresh? {
        WatchedKeepsInv(parse, Walked(s1, walked), url);
      }
    }
  }

  // ---------------------------------------------------------------- a step of the watch

  lemma {:induction false} AppliedReplays(list: ResourceRows.Listing, events: seq<WatchEvent>)
    ensures var next := AppliedAll(list, events);
            && next.rows == ResourceRows.Replayed(list.rows, WatchStream.Changes(events))
            && next.loadGen == list.loadGen
    decreases |events|
  {
    if events != [] {
      var n := |events| - 1;
      AppliedReplays(list, events[..n]);
      assert events == events[..n] + [events[n]];
      WatchStream.ReplayOneMore(list.rows, events[..n], events[n]);
    }
  }

  lemma {:induction false} ReplayAppend(rows: seq<Row>, a: seq<WatchEvent>, b: seq<WatchEvent>)
    ensures ResourceRows.Replayed(rows, WatchStream.Changes(a + b))
         == ResourceRows.Replayed(ResourceRows.Replayed(rows, WatchStream.Changes(a)), WatchStream.Changes(b))
    decreases |b|
  {
    if b == [] {
      assert a + b == a;
    } else {
      var front, last := b[..|b| - 1], b[|b| - 1];
      var middle := ResourceRows.Replayed(rows, WatchStream.Changes(a));
      ReplayAppend(rows, a, front);
      WatchStream.ReplayOneMore(middle, front, last);
      WatchStream.ReplayOneMore(rows, a + front, last);
      FrontLast(a, b);
    }
  }

  lemma FrontLast(a: seq<WatchEvent>, b: seq<WatchEvent>)
    requires b != []
    ensures var front, last := b[..|b| - 1], b[|b| - 1]; b == front + [last] && a + b == (a + front) + [last]
  {
  }

  /** The watch only adds to what it has delivered. */
  lemma DeliversMore(parse: WatchStream.Parser, s: WatchStream.State, e: WatchStream.Event)
    requires WatchStream.Enabled(s, e)
    ensures WatchStream.Step(parse, s, e).delivered == s.delivered + Delivered(s, WatchStream.Step(parse, s, e))
  {
  }

  lemma EventsReachTable(s: State, next: WatchStream.State)
    requires TableInv(s) && next.delivered == s.watch.delivered + Delivered(s.watch, next)
    ensures TableInv(s.(watch := next, list := AppliedAll(s.list, Delivered(s.watch, next))))
  {
    var events := Delivered(s.watch, next);
    AppliedReplays(s.list, events);
    ReplayAppend(s.base, s.watch.delivered[s.mark..], events);
    assert next.delivered[s.mark..] == s.watch.delivered[s.mark..] + events;
  }

  lemma WatchStepKeepsInv(parse: WatchStream.Parser, s: State, e: WatchStream.Event, hasRef: bool)
    requires Inv(parse, s) && Enabled(s, WatchSteps(e, hasRef))
    ensures Inv(parse, WatchStepped(parse, s, e, hasRef))
  {
    var next := WatchStream.Step(parse, s.watch, e);
    WatchStream.StepKeepsInv(parse, s.watch, e);
    DeliversMore(parse, s.watch, e);
    EventsReachTable(s, next);
    AppliedReplays(s.list, Delivered(s.watch, next));
    var s1 := s.(watch := next, list := AppliedAll(s.list, Delivered(s.watch, next)));
    if next.stale > s.watch.stale {
      BegunKeepsInv(parse, s1, RefreshCaller(hasRef));
    } else if Loading(s) {
      WatchStream.StoppedStep(parse, s.watch, e);
    }
  }

  lemma StepKeepsInv(parse: WatchStream.Parser, s: State, e: Event)
    requires Inv(parse, s) && Enabled(s, e)
    ensures Inv(parse, Step(parse, s, e))
  {
    match e
    case Refreshes(hasRef) => BegunKeepsInv(parse, s, RefreshCaller(hasRef));
    case Pages(hasRef) =>
      if hasRef {
        BegunKeepsInv(parse, s, Page);
      } else {
        WatchStream.StoppedKeepsInv(parse, s.watch);
      }
    case Settles(gen, walked, url) => SettledKeepsInv(parse, s, gen, walked, url);
    case WatchSteps(we, hasRef) => WatchStepKeepsInv(parse, s, we, hasRef);
    case Leaves => WatchStream.StoppedKeepsInv(parse, s.watch);
  }

  lemma {:induction false} RunKeepsInv(parse: WatchStream.Parser, s: State, es: seq<Event>)
    requires Inv(parse, s) && IsRun(parse, s, es)
    ensures Inv(parse, Run(parse, s, es))
    decreases |es|
  {
    if es != [] {
      StepKeepsInv(parse, s, es[0]);
      RunKeepsInv(parse, Step(parse, s, es[0]), es[1..]);
    }
  }

  lemma FreshInv(parse: WatchStream.Parser)
    ensures Inv(parse, Fresh)
  {
    NothingSince(Fresh);
  }

  // ---------------------------------------------------------------- main results

  /**
   In every reachable state the table is what the last walk brought, with the events delivered since replayed on it.
   */
  lemma TableIsWalkPlusEvents(parse: WatchStream.Parser, es: seq<Event>)
    requires IsRun(parse, Fresh, es)
    ensures var s := Run(parse, Fresh, es);
            && s.mark <= |s.watch.delivered|
            && s.list.rows == ResourceRows.Replayed(s.base, WatchStream.Changes(s.watch.delivered[s.mark..]))
  {
    FreshInv(parse);
    RunKeepsInv(parse, Fresh, es);
  }

  /** Load generations only grow, and between two loads nobody touches what the last one brought. */
  lemma StepLeavesBase(parse: WatchStream.Parser, s: State, e: Event)
    requires Enabled(s, e) && !Loading(s)
    ensures var next := Step(parse, s, e);
            && next.list.loadGen >= s.list.loadGen
            && (next.list.loadGen == s.list.loadGen ==>
                  !Loading(next) && next.base == s.base && next.mark == s.mark)
  {
    if e.WatchSteps? {
      AppliedReplays(s.list, Delivered(s.watch, WatchStream.Step(parse, s.watch, e.e)));
    }
  }

  lemma {:induction false} GenerationsGrow(parse: WatchStream.Parser, s: State, es: seq<Event>)
    requires IsRun(parse, s, es)
    ensures Run(parse, s, es).list.loadGen >= s.list.loadGen
    decreases |es|
  {
    if es != [] {
      if es[0].WatchSteps? {
        AppliedReplays(s.list, Delivered(s.watch, WatchStream.Step(parse, s.watch, es[0].e)));
      }
      GenerationsGrow(parse, Step(parse, s, es[0]), es[1..]);
    }
  }

  lemma {:induction false} RunLeavesBase(parse: WatchStream.Parser, s: State, es: seq<Event>)
    requires IsRun(parse, s, es) && !Loading(s) && Run(parse, s, es).list.loadGen == s.list.loadGen
    ensures Run(parse, s, es).base == s.base && Run(parse, s, es).mark == s.mark
    decreases |es|
  {
    if es != [] {
      StepLeavesBase(parse, s, es[0]);
      GenerationsGrow(parse, Step(parse, s, es[0]), es[1..]);
      RunLeavesBase(parse, Step(parse, s, es[0]), es[1..]);
    }
  }

  /**
   From the moment the newest load of a resource brings its walk, and for as long as no other load is begun, the table
   is that walk with the events the watch has delivered since: whatever chunks they came in, however often the watch
   reconnected, and whatever loads and loops that were superseded still do.
   */
  lemma TableFollowsTheWatch(parse: WatchStream.Parser, es: seq<Event>, gen: nat, w: ResourceRows.Walk, url: bool,
      after: seq<Event>)
    requires IsRun(parse, Fresh, es)
    requires var s := Run(parse, Fresh, es); gen in s.loads && gen == s.list.loadGen && !s.loads[gen].EmptyRefresh?
    requires IsRun(parse, Step(parse, Run(parse, Fresh, es), Settles(gen, Some(w), url)), after)
    requires Run(parse, Step(parse, Run(parse, Fresh, es), Settles(gen, Some(w), url)), after).list.loadGen == gen
    ensures var s := Run(parse, Fresh, es);
            var t := Run(parse, Step(parse, s, Settles(gen, Some(w), url)), after);
            && |s.watch.delivered| <= |t.watch.delivered|
            && var since := t.watch.delivered[|s.watch.delivered|..];
               t.list.rows == ResourceRows.Replayed(w.rows, WatchStream.Changes(since))
  {
    FreshInv(parse);
    RunKeepsInv(parse, Fresh, es);
    var s := Run(parse, Fresh, es);
    var s1 := Step(parse, s, Settles(gen, Some(w), url));
    StepKeepsInv(parse, s, Settles(gen, Some(w), url));
    RunKeepsInv(parse, s1, after);
    RunLeavesBase(parse, s1, after);
  }

  /**
   No event lands while the newest load is in flight: no step of the watch delivers any, and until a load of a resource
   settles the table is empty.
   */
  lemma NoEventDuringLoad(parse: WatchStream.Parser, es: seq<Event>, e: WatchStream.Event, hasRef: bool)
    requires IsRun(parse, Fresh, es) && Loading(Run(parse, Fresh, es))
    requires Enabled(Run(parse, Fresh, es), WatchSteps(e, hasRef))
    ensures var s := Run(parse, Fresh, es);
            var next := Step(parse, s, WatchSteps(e, hasRef));
            && next.watch.delivered == s.watch.delivered && next.list == s.list
            && (!s.loads[s.list.loadGen].EmptyRefresh? ==> s.list.rows == [])
  {
    FreshInv(parse);
    RunKeepsInv(parse, Fresh, es);
    var s := Run(parse, Fresh, es);
    WatchStream.StoppedStep(parse, s.watch, e);
    assert WatchStream.Step(parse, s.watch, e).delivered[|s.watch.delivered|..] == [];
    assert s.mark == |s.watch.delivered| ==> s.watch.delivered[s.mark..] == [];
  }

  /** An event that lands was delivered by the loop started last, when the newest load had settled. */
  lemma EventsFollowTheLoad(parse: WatchStream.Parser, es: seq<Event>, e: WatchStream.Event, hasRef: bool)
    requires IsRun(parse, Fresh, es) && Enabled(Run(parse, Fresh, es), WatchSteps(e, hasRef))
    requires var s := Run(parse, Fresh, es);
             Step(parse, s, WatchSteps(e, hasRef)).watch.delivered != s.watch.delivered
    ensures var s := Run(parse, Fresh, es);
            !Loading(s) && e.Chunk? && WatchStream.Current(s.watch, e.k) && e.k == |s.watch.loops| - 1
  {
    FreshInv(parse);
    RunKeepsInv(parse, Fresh, es);
    var s := Run(parse, Fresh, es);
    if Loading(s) {
      NoEventDuringLoad(parse, es, e, hasRef);
    }
    var next := WatchStream.Step(parse, s.watch, e);
    assert WatchStream.Stopped(next).delivered == next.delivered;
    if e.Chunk? {
      assert WatchStream.LoopInv(parse, s.watch, e.k, s.watch.loops[e.k]);
    }
  }

  // ---------------------------------------------------------------- when the watch stops and starts

  /** A refresh and a page stop the watch and overtake the load in flight; with a resource they load it afresh. */
  lemma BeginsExactly(parse: WatchStream.Parser, s: State, e: Event)
    requires Inv(parse, s) && (e.Refreshes? || e.Pages?)
    ensures var next := Step(parse, s, e);
            && next.watch.stopped && next.watch.delivered == s.watch.delivered
            && next.list.loadGen == s.list.loadGen + 1
            && (Loading(next) <==> e.Refreshes? || e.hasRef)
            && (if e.hasRef then next.list.rows == [] && next.list.loading && !next.list.failed
                else next.list.rows == s.list.rows && next.list.loading == s.list.loading)
            && (forall gen | gen in s.loads :: gen in next.loads && next.loads[gen] == s.loads[gen])
  {
  }

  /**
   A load that settles starts the watch if and only if it is the newest, a refresh awaits it, and the collection is
   complete: it was loaded, with a version and without a token for more. Then the watch goes on where it was; nothing
   else starts it.
   */
  lemma WatchStartsExactly(parse: WatchStream.Parser, s: State, gen: nat, walked: Option<ResourceRows.Walk>, url: bool)
    requires Inv(parse, s) && gen in s.loads
    ensures var next := Step(parse, s, Settles(gen, walked, url));
            && next.loads == s.loads - {gen}
            && (gen != s.list.loadGen ==> next.watch == s.watch && next.list == s.list)
            && (gen == s.list.loadGen && s.loads[gen] == Page ==> next.watch == s.watch)
            && (gen == s.list.loadGen && s.loads[gen] == Refresh ==>
                  (!next.watch.stopped <==> walked.Some? && walked.value.version != "" && walked.value.token == ""))
            && (gen == s.list.loadGen && s.loads[gen] == EmptyRefresh ==>
                  && next.list == s.list
                  && (!next.watch.stopped <==> !s.list.failed && s.list.version != "" && s.list.token == ""))
  {
  }

  // ---------------------------------------------------------------- relisting

  /**
   When the watch hears that its resourceVersion is gone, by a 410 answer or an ERROR event of code 410, it stops and
   the collection is loaded again from scratch, if there still is a resource; nothing else makes it relist.
   */
  lemma RelistsExactly(parse: WatchStream.Parser, s: State, e: WatchStream.Event, hasRef: bool)
    requires Inv(parse, s) && Enabled(s, WatchSteps(e, hasRef))
    ensures var watched := WatchStream.Step(parse, s.watch, e);
            var next := Step(parse, s, WatchSteps(e, hasRef));
            if watched.stale > s.watch.stale then
              && next.watch.stopped && Loading(next) && next.list.loadGen == s.list.loadGen + 1
              && next.loads[next.list.loadGen] == (if hasRef then Refresh else EmptyRefresh)
              && (hasRef ==> next.list.rows == [] && next.list.loading)
            else next.loads == s.loads && next.list.loadGen == s.list.loadGen && next.watch == watched
  {
    var watched := WatchStream.Step(parse, s.watch, e);
    AppliedReplays(s.list, Delivered(s.watch, watched));
  }

  // ---------------------------------------------------------------- leaving

  /** A refresh is in flight that would start the watch behind its load, stopped or not. */
  predicate Resumes(s: State) {
    Loading(s) &&
    match s.loads[s.list.loadGen]
    case Refresh => true
    case EmptyRefresh => !s.list.failed && s.list.version != "" && s.list.token == ""
    case Page => false
  }

  /** Nobody refreshes any more. */
  predicate NoRefresh(es: seq<Event>) {
    forall i | 0 <= i < |es| :: !es[i].Refreshes?
  }

  lemma StepStaysStopped(parse: WatchStream.Parser, s: State, e: Event)
    requires Inv(parse, s) && s.watch.stopped && !Resumes(s) && Enabled(s, e) && !e.Refreshes?
    ensures var next := Step(parse, s, e);
            next.watch.stopped && next.watch.delivered == s.watch.delivered && !Resumes(next)
  {
    if e.WatchSteps? {
      WatchStream.StoppedStep(parse, s.watch, e.e);
      assert Delivered(s.watch, WatchStream.Step(parse, s.watch, e.e)) == [];
    }
  }

  lemma {:induction false} RunStaysStopped(parse: WatchStream.Parser, s: State, es: seq<Event>)
    requires Inv(parse, s) && s.watch.stopped && !Resumes(s) && IsRun(parse, s, es) && NoRefresh(es)
    ensures Run(parse, s, es).watch.stopped && Run(parse, s, es).watch.delivered == s.watch.delivered
    decreases |es|
  {
    if es != [] {
      StepKeepsInv(parse, s, es[0]);
      assert !es[0].Refreshes?;
      StepStaysStopped(parse, s, es[0]);
      RunStaysStopped(parse, Step(parse, s, es[0]), es[1..]);
    }
  }

  lemma ResumesAfterAll(parse: WatchStream.Parser, s: State) returns (es: seq<Event>)
    requires Inv(parse, s) && Resumes(s)
    ensures IsRun(parse, s, es) && NoRefresh(es) && !Run(parse, s, es).watch.stopped
  {
    var e := Settles(s.list.loadGen, Some(ResourceRows.Walk([], "1", "")), true);
    es := [e];
    assert [e] + [] == es && !es[0].Refreshes?;
    RunCons(parse, s, e, []);
  }

  ghost predicate StaysStopped(parse: WatchStream.Parser, s: State, es: seq<Event>) {
    IsRun(parse, s, es) && NoRefresh(es) ==>
      Run(parse, s, es).watch.stopped && Run(parse, s, es).watch.delivered == s.watch.delivered
  }

  /**
   The watch is closed for good when it is stopped on leaving, and delivers nothing whatever still settles or arrives,
   if and only if no refresh is in flight then that is going to start it.
   */
  lemma LeavingStopsExactly(parse: WatchStream.Parser, es: seq<Event>)
    requires IsRun(parse, Fresh, es)
    ensures var s := Step(parse, Run(parse, Fresh, es), Leaves);
            (forall after: seq<Event> :: StaysStopped(parse, s, after)) <==> !Resumes(s)
  {
    FreshInv(parse);
    RunKeepsInv(parse, Fresh, es);
    StepKeepsInv(parse, Run(parse, Fresh, es), Leaves);
    var s := Step(parse, Run(parse, Fresh, es), Leaves);
    if Resumes(s) {
      var after := ResumesAfterAll(parse, s);
      assert !StaysStopped(parse, s, after);
    } else {
      forall after: seq<Event> ensures StaysStopped(parse, s, after) {
        if IsRun(parse, s, after) && NoRefresh(after) {
          RunStaysStopped(parse, s, after);
        }
      }
    }
  }

  /** Such a run: the page is left while its first load is in flight, and the load starts the watch. */
  lemma LeavingCanFail(parse: WatchStream.Parser, rows: seq<Row>)
    ensures var es := [Refreshes(true), Leaves, Settles(1, Some(ResourceRows.Walk(rows, "1", "")), true)];
            IsRun(parse, Fresh, es) && !Run(parse, Fresh, es).watch.stopped
  {
    var e := Settles(1, Some(ResourceRows.Walk(rows, "1", "")), true);
    var s1 := Step(parse, Fresh, Refreshes(true));
    var s2 := Step(parse, s1, Leaves);
    RunCons(parse, s2, e, []);
    RunCons(parse, s1, Leaves, [e]);
    RunCons(parse, Fresh, Refreshes(true), [Leaves, e]);
    assert [Refreshes(true)] + ([Leaves] + ([e] + [])) == [Refreshes(true), Leaves, e];
  }

  lemma RunCons(parse: WatchStream.Parser, s: State, e: Event, es: seq<Event>)
    requires Enabled(s, e) && IsRun(parse, Step(parse, s, e), es)
    ensures IsRun(parse, s, [e] + es) && Run(parse, s, [e] + es) == Run(parse, Step(parse, s, e), es)
  {
    assert ([e] + es)[1..] == es;
  }
}
