/**
 The search state of the Logs tab (web/src/composables/useLogSearch.ts), beside the stream that owns the buffer.

 A flush changes the buffer in place, so the hits are kept up to date rather than searched again: those of lines
 that were dropped go, the others move down, and only the lines that came in are scanned.
 */
module LogPanel {
  import opened Wrappers

  import opened LogSearch
  import opened LogsStream

  // ---------------------------------------------------------------- scanning piecewise

  /** The matching indices in [from, to). */
  function ScanRange(fold: Fold, q: string, lines: seq<string>, from: nat, to: nat): (hits: seq<nat>)
    requires from <= to <= |lines|
    decreases |lines| - from
  {
    if from == to then []
    else
      var rest := ScanRange(fold, q, lines, from + 1, to);
      if Matches(fold, q, lines[from]) then [from] + rest else rest
  }

  lemma {:induction false} ScanIsRange(fold: Fold, q: string, lines: seq<string>, from: nat)
    requires from <= |lines|
    ensures Scan(fold, q, lines, from) == ScanRange(fold, q, lines, from, |lines|)
    decreases |lines| - from
  {
    if from < |lines| {
      ScanIsRange(fold, q, lines, from + 1);
    }
  }

  lemma {:induction false} RangeSplits(fold: Fold, q: string, lines: seq<string>, from: nat, mid: nat, to: nat)
    requires from <= mid <= to <= |lines|
    ensures ScanRange(fold, q, lines, from, to) ==
        ScanRange(fold, q, lines, from, mid) + ScanRange(fold, q, lines, mid, to)
    decreases |lines| - from
  {
    if from < mid {
      RangeSplits(fold, q, lines, from + 1, mid, to);
      Assoc([from], ScanRange(fold, q, lines, from + 1, mid), ScanRange(fold, q, lines, mid, to));
    }
  }

  predicate Within(hits: seq<nat>, from: nat, to: nat) {
    forall k | 0 <= k < |hits| :: from <= hits[k] < to
  }

  lemma {:induction false} RangeWithin(fold: Fold, q: string, lines: seq<string>, from: nat, to: nat)
    requires from <= to <= |lines|
    ensures Within(ScanRange(fold, q, lines, from, to), from, to)
    decreases |lines| - from
  {
    if from < to {
      RangeWithin(fold, q, lines, from + 1, to);
    }
  }

  /** The same hits, counted from `delta` lines further down. */
  function Shifted(hits: seq<nat>, delta: nat): (r: seq<nat>)
    ensures |r| == |hits|
    ensures forall k | 0 <= k < |r| && delta <= hits[k] :: r[k] == hits[k] - delta
  {
    seq(|hits|, k requires 0 <= k < |hits| => if delta <= hits[k] then hits[k] - delta else 0)
  }

  lemma {:induction false} RangeShifts(fold: Fold, q: string, was: seq<string>, now: seq<string>, delta: nat,
      from: nat, to: nat)
    requires from <= to <= |now| && delta + to <= |was|
    requires forall i | from <= i < to :: now[i] == was[delta + i]
    ensures ScanRange(fold, q, now, from, to) == Shifted(ScanRange(fold, q, was, delta + from, delta + to), delta)
    decreases |now| - from
  {
    if from < to {
      RangeShifts(fold, q, was, now, delta, from + 1, to);
      OneShifts(fold, q, was, now, delta, from, to);
    }
  }

  lemma OneShifts(fold: Fold, q: string, was: seq<string>, now: seq<string>, delta: nat, from: nat, to: nat)
    requires from < to <= |now| && delta + to <= |was| && now[from] == was[delta + from]
    requires ScanRange(fold, q, now, from + 1, to) ==
        Shifted(ScanRange(fold, q, was, delta + from + 1, delta + to), delta)
    ensures ScanRange(fold, q, now, from, to) == Shifted(ScanRange(fold, q, was, delta + from, delta + to), delta)
  {
    ShiftedSum(delta + from, ScanRange(fold, q, was, delta + from + 1, delta + to), delta);
  }

  lemma ShiftedSum(hit: nat, rest: seq<nat>, delta: nat)
    requires delta <= hit
    ensures Shifted([hit] + rest, delta) == [hit - delta] + Shifted(rest, delta)
  {
  }

  /**
   Why the incremental path is right: what was scanned splits at the first surviving line; the hits behind it,
   moved down, and the hits among the new lines are the hits of the whole buffer.
   */
  lemma IncrementalScan(fold: Fold, q: string, was: seq<string>, now: seq<string>, delta: nat)
    requires delta <= |was| && was[delta..] <= now
    ensures var gone := ScanRange(fold, q, was, 0, delta);
            var kept := ScanRange(fold, q, was, delta, |was|);
            && Scan(fold, q, was, 0) == gone + kept
            && Within(gone, 0, delta) && Within(kept, delta, |was|)
            && Scan(fold, q, now, 0) == Shifted(kept, delta) + Scan(fold, q, now, |was| - delta)
  {
    ScanIsRange(fold, q, was, 0);
    RangeSplits(fold, q, was, 0, delta, |was|);
    RangeWithin(fold, q, was, 0, delta);
    RangeWithin(fold, q, was, delta, |was|);
    ScanOfSurvivors(fold, q, was, now, delta);
  }

  lemma ScanOfSurvivors(fold: Fold, q: string, was: seq<string>, now: seq<string>, delta: nat)
    requires delta <= |was| && was[delta..] <= now
    ensures Scan(fold, q, now, 0) ==
        Shifted(ScanRange(fold, q, was, delta, |was|), delta) + Scan(fold, q, now, |was| - delta)
  {
    var n := |was| - delta;
    ScanIsRange(fold, q, now, 0);
    RangeSplits(fold, q, now, 0, n, |now|);
    ScanIsRange(fold, q, now, n);
    SurvivorsStay(was, now, delta);
    RangeShifts(fold, q, was, now, delta, 0, n);
  }

  lemma SurvivorsStay(was: seq<string>, now: seq<string>, delta: nat)
    requires delta <= |was| && was[delta..] <= now
    ensures |was| - delta <= |now| && forall i | 0 <= i < |was| - delta :: now[i] == was[delta + i]
  {
    forall i | 0 <= i < |was| - delta ensures now[i] == was[delta + i] {
      assert was[delta..][i] == was[delta + i];
    }
  }

  lemma FlushExtends(v: View)
    requires |v.lines| <= MAX_LINES && |v.pending| <= MAX_LINES
    ensures var next := Flushed(v);
            && v.dropped <= next.dropped <= v.dropped + |v.lines|
            && v.lines[next.dropped - v.dropped..] <= next.lines
  {
    FlushShifts(v);
  }

  /** The hits are all lines that match, of the whole buffer, and none without a query. */
  lemma VerdictExactly(fold: Fold, q: Option<string>, lines: seq<string>, x: nat)
    ensures x in Verdict(fold, q, lines) <==> q.Some? && x < |lines| && LogSearch.Matches(fold, q.value, lines[x])
  {
    if q.Some? {
      LogSearch.ScanExact(fold, q.value, lines, 0, x);
    }
  }

  // ---------------------------------------------------------------- moving through the hits

  datatype Direction = Forward | Backward

  function Moved(count: nat, active: Option<nat>, step: Direction): (r: Option<nat>)
    requires active.Some? ==> active.value < count
    ensures r.Some? ==> r.value < count
  {
    if count == 0 then active
    else
      var unit := if step.Forward? then 1 else -1;
      match active
      case None => Some(if step.Forward? then 0 else count - 1)
      case Some(current) => Some((current + unit + count) % count)
  }

  function Opposite(step: Direction): Direction {
    if step.Forward? then Backward else Forward
  }

  /** Stepping goes to the neighbour, and round at either end. */
  lemma MovedIs(count: nat, c: nat, step: Direction)
    requires c < count
    ensures Moved(count, Some(c), step)
         == Some(if step.Forward? then (if c + 1 < count then c + 1 else 0) else (if c > 0 then c - 1 else count - 1))
  {
    if step.Forward? {
      if c + 1 < count {
        Quotient(c + 1 + count, count, 1, c + 1);
      } else {
        Quotient(c + 1 + count, count, 2, 0);
      }
    } else if c > 0 {
      Quotient(c - 1 + count, count, 1, c - 1);
    } else {
      Quotient(c - 1 + count, count, 0, count - 1);
    }
  }

  /** With nothing selected, next() selects the first hit and prev() the last; without hits neither selects any. */
  lemma MovesIn(count: nat, step: Direction)
    ensures Moved(count, None, step)
         == if count == 0 then None else if step == Forward then Some(0) else Some(count - 1)
  {
  }

  lemma Quotient(x: nat, n: nat, q: nat, r: nat)
    requires r < n && x == q * n + r
    ensures x % n == r
  {
    var d := x / n - q;
    assert d * n == r - x % n by {
      assert d * n == (x / n) * n - q * n;
    }
    Multiples(d, n);
  }

  lemma Multiples(d: int, n: int)
    requires n >= 0
    ensures d >= 1 ==> d * n >= n
    ensures d <= -1 ==> d * n <= -n
  {
    if d >= 1 {
      assert d * n == (d - 1) * n + n;
    } else if d <= -1 {
      assert d * n == (d + 1) * n - n;
    }
  }

  /** next() and prev() undo each other once something is selected. */
  lemma MovesUndoEachOther(count: nat, active: Option<nat>, step: Direction)
    requires active.Some? && active.value < count
    ensures Moved(count, Moved(count, active, step), Opposite(step)) == active
  {
    MovedIs(count, active.value, step);
    MovedIs(count, Moved(count, active, step).value, Opposite(step));
  }

  function Times(count: nat, active: Option<nat>, step: Direction, n: nat): Option<nat>
    requires active.Some? ==> active.value < count
    decreases n
  {
    if n == 0 then active else Times(count, Moved(count, active, step), step, n - 1)
  }

  /** Stepping forward visits the hits in order, every one of them before the first comes round again. */
  lemma {:induction false} NextVisitsAll(count: nat, c: nat, n: nat)
    requires c < count && n <= count
    ensures Times(count, Some(c), Forward, n) == Some(if c + n < count then c + n else c + n - count)
    decreases n
  {
    if n > 0 {
      MovedIs(count, c, Forward);
      NextVisitsAll(count, if c + 1 < count then c + 1 else 0, n - 1);
    }
  }

  // ---------------------------------------------------------------- the composable

  /** What the viewer must be shown: every matching line of the buffer, or nothing without a query. */
  function Verdict(fold: Fold, q: Option<string>, lines: seq<string>): seq<nat> {
    if q.None? then [] else Scan(fold, q.value, lines, 0)
  }

  class Panel {
    const fold: Fold
    const stream: Stream
    var query: string
    var debounced: string
    var timer: Option<string>     // the value the debounce will apply
    var matches: seq<nat>
    var active: Option<nat>
    var jumpSeq: nat
    var lastQuery: Option<string>
    var lastLines: LineBuffer?
    var lastLen: nat
    var lastDropped: nat

    ghost predicate Valid()
      reads this, stream, stream.lines, stream.pending
    {
      stream.Valid() && (timer.Some? ==> timer.value == query)
    }

    ghost predicate ActiveInRange()
      reads this
    {
      active.Some? ==> active.value < |matches|
    }

    /** The hits are those of the whole buffer as it is now, and the bookkeeping is of now. */
    ghost predicate InSync()
      reads this, stream, stream.lines
    {
      && matches == Verdict(fold, CompileQuery(debounced), stream.lines.items)
      && ActiveInRange()
      && lastQuery == CompileQuery(debounced)
      && (lastQuery.Some? ==>
            lastLines == stream.lines && lastLen == |stream.lines.items| && lastDropped == stream.dropped)
    }

    constructor (fold: Fold, stream: Stream)
      requires stream.Valid()
      ensures Valid() && InSync() && this.fold == fold && this.stream == stream
    {
      this.fold, this.stream := fold, stream;
      query, debounced, timer := "", "", None;
      matches, active, jumpSeq := [], None, 0;
      lastQuery, lastLines, lastLen, lastDropped := None, null, 0, 0;
    }

    /** The line the selected hit is on, counted from the start of the stream rather than of the buffer. */
    ghost function ActiveLine(): nat
      requires active.Some? && active.value < |matches|
      reads this, stream
    {
      stream.dropped + matches[active.value]
    }

    method Rescan(q: string)
      modifies this`matches, this`active
      ensures matches == Scan(fold, q, stream.lines.items, 0) && active == None
    {
      matches := ScanLines(fold, q, stream.lines.items, 0);
      active := None;
    }

    static method CountBelow(previous: seq<nat>, delta: nat, ghost gone: seq<nat>, ghost left: seq<nat>)
      returns (kept: nat)
      requires previous == gone + left && Within(gone, 0, delta) && forall k | 0 <= k < |left| :: delta <= left[k]
      ensures kept == |gone|
    {
      assert forall k | 0 <= k < |gone| :: previous[k] == gone[k];
      assert forall k | |gone| <= k < |previous| :: previous[k] == left[k - |gone|];
      kept := 0;
      while kept < |previous| && previous[kept] < delta
        invariant kept <= |gone|
      {
        kept := kept + 1;
      }
    }

    static method MoveDown(previous: seq<nat>, removed: nat, delta: nat, ghost left: seq<nat>) returns (next: seq<nat>)
      requires removed <= |previous| && previous[removed..] == left && forall k | 0 <= k < |left| :: delta <= left[k]
      ensures next == Shifted(left, delta)
    {
      next := [];
      for i := removed to |previous|
        invariant |next| == i - removed
        invariant forall k | 0 <= k < |next| :: next[k] == left[k] - delta
      {
        assert previous[i] == left[i - removed];
        next := next + [previous[i] - delta];
      }
    }

    static method PushAll(front: seq<nat>, more: seq<nat>) returns (all: seq<nat>)
      ensures all == front + more
    {
      all := front;
      for i := 0 to |more|
        invariant all == front + more[..i]
      {
        all := all + [more[i]];
      }
    }

    /**
     The incremental branch of the watch: `was` is the buffer the current hits are of.
     */
    method Shift(q: string, ghost was: seq<string>)
      requires matches == Scan(fold, q, was, 0) && ActiveInRange() && lastLen == |was|
      requires lastDropped <= stream.dropped <= lastDropped + lastLen
      requires was[stream.dropped - lastDropped..] <= stream.lines.items
      modifies this`matches, this`active
      ensures matches == Scan(fold, q, stream.lines.items, 0) && ActiveInRange()
      ensures old(active).None? ==> active.None?
      ensures old(active).Some? ==>
                var line := lastDropped + old(matches[active.value]);
                (active.Some? <==> line >= stream.dropped) && (active.Some? ==> ActiveLine() == line)
    {
      var delta := stream.dropped - lastDropped;
      ghost var gone := ScanRange(fold, q, was, 0, delta);
      ghost var left := ScanRange(fold, q, was, delta, |was|);
      IncrementalScan(fold, q, was, stream.lines.items, delta);
      var previous := matches;
      var removed := CountBelow(previous, delta, gone, left);
      var next := MoveDown(previous, removed, delta, left);
      var more := ScanLines(fold, q, stream.lines.items, lastLen - delta);
      matches := PushAll(next, more);
      assert forall k | |gone| <= k < |previous| :: previous[k] == left[k - |gone|];
      if active.Some? {
        active := if active.value < removed then None else Some(active.value - removed);
      }
    }

    /** The watch on the query and on the buffer's version, run synchronously. */
    method Watch(ghost was: seq<string>)
      requires stream.Valid()
      requires matches == Verdict(fold, lastQuery, was) && ActiveInRange()
      requires lastQuery.Some? && lastLines == stream.lines ==>
                 && lastLen == |was| && lastDropped <= stream.dropped <= lastDropped + lastLen
                 && was[stream.dropped - lastDropped..] <= stream.lines.items
      modifies this`matches, this`active, this`lastQuery, this`lastLines, this`lastLen, this`lastDropped
      ensures InSync()
      ensures if CompileQuery(debounced) == old(lastQuery) && lastLines == old(lastLines)
              then Follows(old(active.Some?), old(lastDropped + if active.Some? then matches[active.value] else 0))
              else active == None
    {
      var q := CompileQuery(debounced);
      if q.None? {
        matches := [];
        active := None;
      } else if q != lastQuery || stream.lines != lastLines {
        Rescan(q.value);
      } else {
        Shift(q.value, was);
      }
      lastQuery := q;
      lastLines := stream.lines;
      lastLen := |stream.lines.items|;
      lastDropped := stream.dropped;
    }

    /** What was selected is still selected, on the same line; it is let go of exactly when that line is gone. */
    ghost predicate Follows(selected: bool, line: nat)
      reads this, stream
    {
      && ActiveInRange()
      && (active.Some? <==> selected && line >= stream.dropped)
      && (active.Some? ==> ActiveLine() == line)
    }

    /** A flush of the stream, and the watch it sets off. */
    method OnFlush()
      requires Valid() && InSync()
      modifies this`matches, this`active, this`lastQuery, this`lastLines, this`lastLen, this`lastDropped, stream,
          stream.lines
      ensures Valid() && InSync() && stream.AsView() == Flushed(old(stream.AsView()))
      ensures Follows(old(active.Some?), old(if active.Some? then ActiveLine() else 0))
    {
      ghost var before := stream.AsView();
      FlushExtends(before);
      var version := stream.version;
      stream.Flush();
      assert stream.lines.items == Flushed(before).lines && stream.dropped == Flushed(before).dropped;
      if stream.version != version {
        assert matches == Verdict(fold, lastQuery, before.lines);
        Watch(before.lines);
      } else {
        assert before.pending == [];
      }
    }

    /** start(): a fresh buffer, so everything is searched again. */
    method OnRestart() returns (gen: nat)
      requires Valid() && InSync()
      modifies this`matches, this`active, this`lastQuery, this`lastLines, this`lastLen, this`lastDropped, stream
      ensures Valid() && InSync() && stream.AsView() == Started(old(stream.AsView())) && active == None
    {
      ghost var before := stream.lines.items;
      var version := stream.version;
      gen := stream.Start();
      if stream.version != version {
        Watch(before);
      }
    }

    method SetQuery(value: string)
      requires Valid()
      modifies this`query, this`timer
      ensures Valid() && query == value && (old(query) != value ==> timer == Some(value))
      ensures old(query) == value ==> timer == old(timer)
    {
      if query != value {
        query := value;
        timer := Some(value);
      }
    }

    /** Applying a new query, and the watch it sets off if that changes what is searched for. */
    method Apply(value: string)
      requires Valid() && InSync()
      modifies this`debounced, this`matches, this`active, this`lastQuery, this`lastLines, this`lastLen, this`lastDropped
      ensures Valid() && InSync() && debounced == value
      ensures active == if CompileQuery(value) == old(CompileQuery(debounced)) then old(active) else None
    {
      var compiled := CompileQuery(debounced);
      debounced := value;
      if CompileQuery(debounced) != compiled {
        Watch(stream.lines.items);
      }
    }

    method OnDebounce()
      requires Valid() && InSync() && timer.Some?
      modifies this
      ensures Valid() && InSync() && timer == None && debounced == query == old(query)
    {
      var value := timer.value;
      timer := None;
      Apply(value);
    }

    method Settle()
      requires Valid() && InSync()
      modifies this
      ensures Valid() && InSync() && timer == None && query == old(query) && jumpSeq == old(jumpSeq)
      ensures debounced == if old(timer).Some? then old(query) else old(debounced)
      ensures active == if CompileQuery(debounced) == old(CompileQuery(debounced)) then old(active) else None
    {
      if timer.None? {
        return;
      }
      timer := None;
      Apply(query);
    }

    /** next() and prev(): on the hits of the query as typed, one step from where the selection is. */
    method Move(step: Direction)
      requires Valid() && InSync()
      modifies this
      ensures Valid() && InSync() && timer == None && query == old(query)
      ensures debounced == if old(timer).Some? then old(query) else old(debounced)
      ensures var from := if CompileQuery(debounced) == old(CompileQuery(debounced)) then old(active) else None;
              (from.Some? ==> from.value < |matches|) && active == Moved(|matches|, from, step)
      ensures jumpSeq == old(jumpSeq) + if |matches| == 0 then 0 else 1
    {
      Settle();
      var count := |matches|;
      if count == 0 {
        return;
      }
      active := Moved(count, active, step);
      jumpSeq := jumpSeq + 1;
    }

    method Clear()
      requires Valid() && InSync()
      modifies this`query, this`timer, this`active
      ensures Valid() && InSync() && query == "" && active == None
      ensures old(query) != "" ==> timer == Some("")
    {
      SetQuery("");
      active := None;
    }
  }
}
