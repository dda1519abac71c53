/**
 The aligned multi-series metrics buffer of web/src/utils/ringBuffer.ts, proved to be the window of the last
 MAX_SAMPLES samples it accepted.
 */
module RingBuffer {
  import opened Wrappers

  const MAX_SAMPLES: nat := 240

  /** One push: the labels in the order the record lists them, and their values. */
  datatype Sample = Sample(at: int, labels: seq<string>, values: map<string, real>)

  predicate Record(s: Sample) {
    && (forall i | 0 <= i < |s.labels| :: s.labels[i] in s.values)
    && (forall l | l in s.values :: l in s.labels)
  }

  ghost predicate Records(accepted: seq<Sample>) {
    forall i | 0 <= i < |accepted| :: Record(accepted[i])
  }

  type Points = seq<Option<real>>

  function ValueOf(s: Sample, name: string): Option<real> {
    if name in s.values then Some(s.values[name]) else None
  }

  // ---------------------------------------------------------------- the window

  function Window(accepted: seq<Sample>): (w: seq<Sample>)
    ensures |w| <= MAX_SAMPLES
    ensures accepted != [] ==> w != [] && w[|w| - 1] == accepted[|accepted| - 1]
  {
    if |accepted| <= MAX_SAMPLES then accepted else accepted[|accepted| - MAX_SAMPLES..]
  }

  function Times(w: seq<Sample>): (ts: seq<int>)
    ensures |ts| == |w| && forall i | 0 <= i < |w| :: ts[i] == w[i].at
  {
    seq(|w|, i requires 0 <= i < |w| => w[i].at)
  }

  /** One series, aligned with the timestamps: a sample without the label leaves a gap. */
  function Column(w: seq<Sample>, name: string): (points: Points)
    ensures |points| == |w| && forall i | 0 <= i < |w| :: points[i] == ValueOf(w[i], name)
  {
    seq(|w|, i requires 0 <= i < |w| => ValueOf(w[i], name))
  }

  function AddLabels(known: seq<string>, labels: seq<string>): seq<string> {
    if labels == [] then known
    else
      var front := AddLabels(known, labels[..|labels| - 1]);
      var last := labels[|labels| - 1];
      if last in front then front else front + [last]
  }

  /** Every label ever seen, in order of first appearance. */
  function LabelsOf(accepted: seq<Sample>): seq<string> {
    if accepted == [] then []
    else AddLabels(LabelsOf(accepted[..|accepted| - 1]), accepted[|accepted| - 1].labels)
  }

  function Seconds(w: seq<Sample>): (xs: seq<real>)
    ensures |xs| == |w| && forall i | 0 <= i < |w| :: xs[i] == w[i].at as real / 1000.0
  {
    seq(|w|, i requires 0 <= i < |w| => w[i].at as real / 1000.0)
  }

  lemma ColumnFrom(w: seq<Sample>, from: nat, name: string)
    requires from <= |w|
    ensures Column(w[from..], name) == Column(w, name)[from..]
  {
  }

  ghost predicate Ascending(w: seq<Sample>) {
    forall i, j | 0 <= i < j < |w| :: w[i].at < w[j].at
  }

  /** The samples at or after the cutoff. */
  function Since(w: seq<Sample>, cutoff: int): seq<Sample> {
    if w == [] then []
    else if w[0].at >= cutoff then [w[0]] + Since(w[1..], cutoff) else Since(w[1..], cutoff)
  }

  lemma {:induction false} AllSince(w: seq<Sample>, cutoff: int)
    requires Ascending(w) && (w == [] || w[0].at >= cutoff)
    ensures Since(w, cutoff) == w
  {
    if w != [] {
      AllSince(w[1..], cutoff);
      assert [w[0]] + w[1..] == w;
    }
  }

  lemma {:induction false} SinceIsSuffix(w: seq<Sample>, cutoff: int, from: nat)
    requires Ascending(w) && from < |w| && w[from].at >= cutoff && forall i | 0 <= i < from :: w[i].at < cutoff
    ensures Since(w, cutoff) == w[from..]
  {
    if from == 0 {
      AllSince(w, cutoff);
      assert w[0..] == w;
    } else {
      SinceIsSuffix(w[1..], cutoff, from - 1);
      assert w[1..][from - 1..] == w[from..];
    }
  }

  /** What a chart draws: all of it, or the samples within a range of the newest one. A negative range draws all. */
  function Drawn(w: seq<Sample>, rangeSeconds: Option<int>): seq<Sample> {
    if rangeSeconds.None? || w == [] || rangeSeconds.value < 0 then w
    else Since(w, w[|w| - 1].at - rangeSeconds.value * 1000)
  }

  /** A range that is not negative finds the samples within it, a negative one finds none. */
  lemma FoundWindow(w: seq<Sample>, ts: seq<int>, range: int, cutoff: int, found: int)
    requires Ascending(w) && w != [] && ts == Times(w) && cutoff == ts[|ts| - 1] - range * 1000
    requires -1 <= found < |ts|
    requires found >= 0 ==> ts[found] >= cutoff && forall i | 0 <= i < found :: ts[i] < cutoff
    requires found < 0 ==> forall i | 0 <= i < |ts| :: ts[i] < cutoff
    ensures Drawn(w, Some(range)) == w[if found < 0 then 0 else found..]
  {
    var last := |w| - 1;
    assert ts[last] == w[last].at && (found >= 0 ==> ts[found] == w[found].at <= w[last].at);
    if range < 0 {
      assert w[0..] == w;
    } else {
      forall i | 0 <= i < found ensures w[i].at < cutoff {
        assert ts[i] == w[i].at;
      }
      SinceIsSuffix(w, cutoff, found);
    }
  }

  // ---------------------------------------------------------------- one more sample

  /** Without its oldest, if there is one too many. */
  function Capped<T>(s: seq<T>): seq<T> {
    if |s| > MAX_SAMPLES then s[1..] else s
  }

  lemma WindowGrows(accepted: seq<Sample>, s: Sample)
    ensures Window(accepted + [s]) == Capped(Window(accepted) + [s])
  {
    if |accepted| >= MAX_SAMPLES {
      var n := |accepted| - MAX_SAMPLES;
      DropAppend(accepted, s, n);
      assert n == 0 ==> accepted[0..] == accepted;
    }
  }

  lemma DropAppend(accepted: seq<Sample>, s: Sample, n: nat)
    requires n < |accepted|
    ensures (accepted + [s])[n + 1..] == (accepted[n..] + [s])[1..]
  {
  }

  lemma ColumnGrows(w: seq<Sample>, s: Sample, name: string)
    ensures Column(w + [s], name) == Column(w, name) + [ValueOf(s, name)]
  {
  }

  lemma ColumnShifts(w: seq<Sample>, name: string)
    requires w != []
    ensures Column(w[1..], name) == Column(w, name)[1..]
  {
  }

  lemma TimesGrow(w: seq<Sample>, s: Sample)
    ensures Times(w + [s]) == Times(w) + [s.at]
    ensures Times((w + [s])[1..]) == (Times(w) + [s.at])[1..]
  {
  }

  /** Pushing, and dropping the oldest if that was one too many, gives the next window and its timestamps. */
  lemma NextWindow(accepted: seq<Sample>, s: Sample)
    ensures Window(accepted + [s]) == Capped(Window(accepted) + [s])
    ensures Times(Window(accepted + [s])) == Capped(Times(Window(accepted)) + [s.at])
  {
    WindowGrows(accepted, s);
    TimesGrow(Window(accepted), s);
  }

  lemma AscendingGrows(accepted: seq<Sample>, s: Sample)
    requires Ascending(accepted) && (accepted == [] || s.at > accepted[|accepted| - 1].at)
    ensures Ascending(accepted + [s])
  {
  }

  lemma {:induction false} WindowAscends(accepted: seq<Sample>)
    requires Ascending(accepted)
    ensures Ascending(Window(accepted))
  {
  }

  predicate HasColumn(series: map<string, Points>, name: string, w: seq<Sample>) {
    name in series && series[name] == Column(w, name)
  }

  ghost predicate Known(series: map<string, Points>, labels: seq<string>) {
    forall l | l in series :: l in labels
  }

  /** Every series, and no other, holds the column of its label. */
  ghost predicate Aligned(series: map<string, Points>, labels: seq<string>, w: seq<Sample>) {
    Halfway(series, labels, 0, w, w)
  }

  /** While the series are gone through: the first k hold the columns of one window already, the others of another. */
  ghost predicate Halfway(series: map<string, Points>, labels: seq<string>, k: int, w2: seq<Sample>, w: seq<Sample>) {
    && Known(series, labels)
    && (forall i | 0 <= i < |labels| && i < k :: HasColumn(series, labels[i], w2))
    && (forall i | 0 <= i < |labels| && k <= i :: HasColumn(series, labels[i], w))
  }

  lemma OneFurther(series: map<string, Points>, labels: seq<string>, k: nat, w2: seq<Sample>, w: seq<Sample>)
    requires NoRepeats(labels) && k < |labels| && Halfway(series, labels, k, w2, w)
    ensures Halfway(series[labels[k] := Column(w2, labels[k])], labels, k + 1, w2, w)
  {
    var next := series[labels[k] := Column(w2, labels[k])];
    forall i | 0 <= i < |labels| ensures HasColumn(next, labels[i], if i < k + 1 then w2 else w) {
      assert HasColumn(series, labels[i], if i < k then w2 else w);
    }
  }

  lemma NewColumn(series: map<string, Points>, labels: seq<string>, w: seq<Sample>, name: string)
    requires Aligned(series, labels, w) && NoRepeats(labels) && name !in series
    ensures Aligned(series[name := Column(w, name)], labels + [name], w) && NoRepeats(labels + [name])
  {
    var next := series[name := Column(w, name)];
    forall i | 0 <= i < |labels| + 1
      ensures HasColumn(next, (labels + [name])[i], w) && (i < |labels| ==> labels[i] != name) {
      if i < |labels| {
        assert HasColumn(series, labels[i], w);
      }
    }
    forall l | l in next ensures l in labels + [name] {
      assert l in series || l == name;
    }
  }

  predicate NoRepeats(labels: seq<string>) {
    forall i, j | 0 <= i < j < |labels| :: labels[i] != labels[j]
  }

  ghost predicate Unseen(w: seq<Sample>, name: string) {
    forall i | 0 <= i < |w| :: name !in w[i].values
  }

  lemma {:induction false} Keeps(known: seq<string>, labels: seq<string>, l: string)
    ensures l in AddLabels(known, labels) <==> l in known || l in labels
  {
    if labels != [] {
      Keeps(known, labels[..|labels| - 1], l);
      assert labels == labels[..|labels| - 1] + [labels[|labels| - 1]];
    }
  }

  /** A label not seen yet was in none of the samples, so its column starts with gaps. */
  lemma {:induction false} SeenLabels(accepted: seq<Sample>, name: string)
    requires Records(accepted)
    requires name !in LabelsOf(accepted)
    ensures Unseen(accepted, name)
  {
    if accepted != [] {
      var front, last := accepted[..|accepted| - 1], accepted[|accepted| - 1];
      Keeps(LabelsOf(front), last.labels, name);
      SeenLabels(front, name);
      assert Record(last);
      assert accepted == front + [last];
    }
  }

  lemma LabelIsColumn(series: map<string, Points>, labels: seq<string>, w: seq<Sample>, name: string)
    requires Aligned(series, labels, w)
    ensures name in labels <==> name in series
  {
    if name in labels {
      var i :| 0 <= i < |labels| && labels[i] == name;
      assert HasColumn(series, labels[i], w);
    }
  }

  lemma NoGapsMissing(accepted: seq<Sample>, added: seq<string>, series: map<string, Points>, name: string)
    requires Records(accepted) && name !in series
    requires Aligned(series, AddLabels(LabelsOf(accepted), added), Window(accepted))
    ensures Unseen(Window(accepted), name)
  {
    LabelIsColumn(series, AddLabels(LabelsOf(accepted), added), Window(accepted), name);
    Keeps(LabelsOf(accepted), added, name);
    SeenLabels(accepted, name);
  }

  lemma AllGaps(w: seq<Sample>, gaps: Points, name: string)
    requires Unseen(w, name) && |gaps| == |w| && forall i | 0 <= i < |gaps| :: gaps[i] == None
    ensures gaps == Column(w, name)
  {
  }

  /** The buffer's fields are those of the window of what was accepted. */
  ghost predicate Mirrors(timestamps: seq<int>, labels: seq<string>, series: map<string, Points>,
      accepted: seq<Sample>)
  {
    && timestamps == Times(Window(accepted))
    && labels == LabelsOf(accepted) && NoRepeats(labels)
    && Aligned(series, labels, Window(accepted))
    && Ascending(accepted)
    && Records(accepted)
  }

  lemma StillMirrors(timestamps: seq<int>, labels: seq<string>, series: map<string, Points>, accepted: seq<Sample>,
      s: Sample)
    requires Ascending(accepted) && Records(accepted) && Record(s)
    requires accepted == [] || s.at > accepted[|accepted| - 1].at
    requires timestamps == Times(Window(accepted + [s])) && labels == LabelsOf(accepted + [s]) && NoRepeats(labels)
    requires Aligned(series, labels, Window(accepted + [s]))
    ensures Mirrors(timestamps, labels, series, accepted + [s])
  {
    AscendingGrows(accepted, s);
  }

  class Buffer {
    var timestamps: seq<int>
    var labels: seq<string>          // the series in the order they were added
    var series: map<string, Points>
    ghost var accepted: seq<Sample>

    /** The buffer is the window of what it accepted. */
    ghost predicate Valid()
      reads this
    {
      Mirrors(timestamps, labels, series, accepted)
    }

    constructor ()
      ensures Valid() && accepted == []
    {
      timestamps, labels, series, accepted := [], [], map[], [];
    }

    function LastTimestamp(): (r: Option<int>)
      reads this
      ensures r == None <==> timestamps == []
    {
      if timestamps == [] then None else Some(timestamps[|timestamps| - 1])
    }

    /** Adds the labels not seen before, with a gap for every sample there has been. */
    method Backfill(s: Sample, ghost w: seq<Sample>)
      requires |timestamps| == |w| + 1 && w == Window(accepted) && labels == LabelsOf(accepted) && NoRepeats(labels)
      requires Aligned(series, labels, w)
      requires Records(accepted)
      modifies this`labels, this`series
      ensures labels == LabelsOf(accepted + [s]) && NoRepeats(labels) && Aligned(series, labels, w)
    {
      ghost var known := labels;
      for k := 0 to |s.labels|
        invariant labels == AddLabels(known, s.labels[..k]) && NoRepeats(labels)
        invariant Aligned(series, labels, w)
      {
        assert s.labels[..k + 1] == s.labels[..k] + [s.labels[k]];
        AddLabel(s.labels[k], w, s.labels[..k]);
      }
      assert s.labels[..|s.labels|] == s.labels;
      assert (accepted + [s])[..|accepted|] == accepted;
    }

    method AddLabel(name: string, ghost w: seq<Sample>, ghost added: seq<string>)
      requires |timestamps| == |w| + 1 && w == Window(accepted) && Records(accepted)
      requires labels == AddLabels(LabelsOf(accepted), added) && NoRepeats(labels) && Aligned(series, labels, w)
      modifies this`labels, this`series
      ensures labels == AddLabels(LabelsOf(accepted), added + [name])
      ensures NoRepeats(labels) && Aligned(series, labels, w)
    {
      assert (added + [name])[..|added|] == added;
      LabelIsColumn(series, labels, w, name);
      if name !in series {
        var gaps: Points := seq(|timestamps| - 1, i => None);
        NoGapsMissing(accepted, added, series, name);
        AllGaps(w, gaps, name);
        NewColumn(series, labels, w, name);
        labels, series := labels + [name], series[name := gaps];
      }
    }

    /** Appends this sample's point to every series. */
    method AppendPoints(s: Sample, ghost w: seq<Sample>)
      requires NoRepeats(labels) && Aligned(series, labels, w)
      modifies this`series
      ensures Aligned(series, labels, w + [s])
    {
      for k := 0 to |labels|
        invariant Halfway(series, labels, k, w + [s], w)
      {
        assert HasColumn(series, labels[k], w);
        ColumnGrows(w, s, labels[k]);
        OneFurther(series, labels, k, w + [s], w);
        series := series[labels[k] := series[labels[k]] + [ValueOf(s, labels[k])]];
      }
    }

    /** Drops the oldest point of every series. */
    method ShiftPoints(ghost w: seq<Sample>)
      requires NoRepeats(labels) && Aligned(series, labels, w) && w != []
      modifies this`series
      ensures Aligned(series, labels, w[1..])
    {
      for k := 0 to |labels|
        invariant Halfway(series, labels, k, w[1..], w)
      {
        assert HasColumn(series, labels[k], w);
        ColumnShifts(w, labels[k]);
        OneFurther(series, labels, k, w[1..], w);
        series := series[labels[k] := series[labels[k]][1..]];
      }
    }

    /** Drops the oldest sample if there is one too many. */
    method DropOldest(ghost grown: seq<Sample>)
      requires NoRepeats(labels) && Aligned(series, labels, grown) && |timestamps| == |grown| > 0
      modifies this`timestamps, this`series
      ensures timestamps == Capped(old(timestamps)) && Aligned(series, labels, Capped(grown))
    {
      if |timestamps| > MAX_SAMPLES {
        timestamps := timestamps[1..];
        ShiftPoints(grown);
      }
    }

    /** The part of push behind the check. */
    method Take(s: Sample)
      requires Valid() && Record(s) && (accepted == [] || s.at > accepted[|accepted| - 1].at)
      modifies this
      ensures Valid() && accepted == old(accepted) + [s]
    {
      ghost var grown := Window(accepted) + [s];
      NextWindow(accepted, s);
      timestamps := timestamps + [s.at];
      Backfill(s, Window(accepted));
      AppendPoints(s, Window(accepted));
      DropOldest(grown);
      StillMirrors(timestamps, labels, series, accepted, s);
      accepted := accepted + [s];
    }

    /** A sample is taken exactly when it is newer than every one before; a rejected one changes nothing. */
    method Push(s: Sample) returns (ok: bool)
      requires Valid() && Record(s)
      modifies this
      ensures Valid()
      ensures ok <==> old(accepted) == [] || s.at > old(accepted)[|old(accepted)| - 1].at
      ensures accepted == if ok then old(accepted) + [s] else old(accepted)
      ensures !ok ==> timestamps == old(timestamps) && labels == old(labels) && series == old(series)
    {
      var last := LastTimestamp();
      if last.Some? && s.at <= last.value {
        return false;
      }
      Take(s);
      return true;
    }

    /** toUplotData. A negative range finds nothing, and then everything is drawn. */
    method ToUplotData(rangeSeconds: Option<int>) returns (xs: seq<real>, columns: seq<Points>)
      requires Valid()
      ensures var drawn := Drawn(Window(accepted), rangeSeconds);
              && xs == Seconds(drawn)
              && |columns| == |labels| && forall k | 0 <= k < |columns| :: columns[k] == Column(drawn, labels[k])
    {
      var from := From(rangeSeconds);
      xs := InSeconds(timestamps[from..], Window(accepted)[from..]);
      columns := ColumnsFrom(from, Window(accepted));
    }

    static method InSeconds(ts: seq<int>, ghost drawn: seq<Sample>) returns (xs: seq<real>)
      requires ts == Times(drawn)
      ensures xs == Seconds(drawn)
    {
      xs := seq(|ts|, i requires 0 <= i < |ts| => ts[i] as real / 1000.0);
    }

    method ColumnsFrom(from: nat, ghost w: seq<Sample>) returns (columns: seq<Points>)
      requires Aligned(series, labels, w) && from <= |w|
      ensures |columns| == |labels| && forall k | 0 <= k < |columns| :: columns[k] == Column(w[from..], labels[k])
    {
      columns := [];
      for k := 0 to |labels|
        invariant |columns| == k && forall i | 0 <= i < k :: columns[i] == Column(w[from..], labels[i])
      {
        assert HasColumn(series, labels[k], w);
        ColumnFrom(w, from, labels[k]);
        columns := columns + [series[labels[k]][from..]];
      }
    }

    /** Where the drawn samples begin. */
    method From(rangeSeconds: Option<int>) returns (from: nat)
      requires Valid()
      ensures from <= |timestamps| && Drawn(Window(accepted), rangeSeconds) == Window(accepted)[from..]
    {
      from := 0;
      ghost var w := Window(accepted);
      if rangeSeconds.Some? && |timestamps| > 0 {
        var cutoff := timestamps[|timestamps| - 1] - rangeSeconds.value * 1000;
        var found := FindFrom(cutoff);
        if found >= 0 {
          from := found;
        }
        WindowAscends(accepted);
        FoundWindow(w, timestamps, rangeSeconds.value, cutoff, found);
      } else {
        assert w[0..] == w;
      }
    }

    /** timestamps.findIndex((t) => t >= cutoff). */
    method FindFrom(cutoff: int) returns (from: int)
      ensures -1 <= from < |timestamps|
      ensures from >= 0 ==> timestamps[from] >= cutoff && forall i | 0 <= i < from :: timestamps[i] < cutoff
      ensures from < 0 ==> forall i | 0 <= i < |timestamps| :: timestamps[i] < cutoff
    {
      from := 0;
      while from < |timestamps|
        invariant 0 <= from <= |timestamps| && forall i | 0 <= i < from :: timestamps[i] < cutoff
      {
        if timestamps[from] >= cutoff {
          return;
        }
        from := from + 1;
      }
      from := -1;
    }
  }
}
