/**
 Search over the log lines and highlighting of the hits (web/src/utils/logSearch.ts).

 A query is a plain substring, compared character by character after a case fold. The fold
 is the browser's; nothing here depends on which one it is.
 */
module LogSearch {
  import opened Wrappers

  import opened JsText
  import JsonGrammar

  type Fold = char -> char

  // ---------------------------------------------------------------- matching

  /** The query, or None when there is nothing but whitespace to search for. */
  function CompileQuery(raw: string): (q: Option<string>)
    ensures q.None? <==> Trim(raw) == ""
    ensures q.Some? ==> q.value == raw != ""
  {
    if Trim(raw) == "" then None else Some(raw)
  }

  /** The pattern matches at offset i. */
  predicate MatchAt(fold: Fold, q: string, line: string, i: nat) {
    i + |q| <= |line| && forall k | 0 <= k < |q| :: fold(line[i + k]) == fold(q[k])
  }

  /** RegExp.test. */
  predicate Matches(fold: Fold, q: string, line: string) {
    exists i: nat | i <= |line| :: MatchAt(fold, q, line, i)
  }

  /** RegExp.exec from lastIndex: the first match at or after it. */
  function Exec(fold: Fold, q: string, line: string, lastIndex: nat): (r: Option<nat>)
    ensures r.Some? ==> lastIndex <= r.value && MatchAt(fold, q, line, r.value)
    ensures forall i: nat | lastIndex <= i && MatchAt(fold, q, line, i) :: r.Some? && r.value <= i
    decreases |line| - lastIndex
  {
    if lastIndex > |line| then None
    else if MatchAt(fold, q, line, lastIndex) then Some(lastIndex)
    else Exec(fold, q, line, lastIndex + 1)
  }

  datatype Range = Range(start: nat, end: nat)

  predicate Covers(ranges: seq<Range>, i: nat) {
    ranges != [] && (ranges[0].start <= i < ranges[0].end || Covers(ranges[1..], i))
  }

  function Folded(fold: Fold, s: string): string {
    seq(|s|, i requires 0 <= i < |s| => fold(s[i]))
  }

  /** A line matches if it has a stretch that is the query, letter case aside, with anything around it. */
  lemma MatchesExactly(fold: Fold, q: string, line: string)
    ensures Matches(fold, q, line) <==>
              exists a, m, b :: line == a + m + b && Folded(fold, m) == Folded(fold, q)
  {
    if Matches(fold, q, line) {
      var i: nat :| i <= |line| && MatchAt(fold, q, line, i);
      var m := line[i..i + |q|];
      assert line == line[..i] + m + line[i + |q|..];
      assert Folded(fold, m) == Folded(fold, q);
    }
    forall a, m, b | line == a + m + b && Folded(fold, m) == Folded(fold, q) ensures Matches(fold, q, line) {
      SameLength(fold, m, q);
      forall k | 0 <= k < |q| ensures fold(line[|a| + k]) == fold(q[k]) {
        assert line[|a| + k] == m[k] && Folded(fold, m)[k] == fold(m[k]) && Folded(fold, q)[k] == fold(q[k]);
      }
      assert MatchAt(fold, q, line, |a|);
    }
  }

  lemma SameLength(fold: Fold, a: string, b: string)
    requires Folded(fold, a) == Folded(fold, b)
    ensures |a| == |b|
  {
    assert |Folded(fold, a)| == |a| && |Folded(fold, b)| == |b|;
  }

  /** The offset lies in one of the ranges. */
  ghost predicate Inside(ranges: seq<Range>, x: nat) {
    exists k | 0 <= k < |ranges| :: ranges[k].start <= x < ranges[k].end
  }

  lemma {:induction false} CoversMeans(ranges: seq<Range>, i: nat)
    ensures Covers(ranges, i) <==> Inside(ranges, i)
  {
    if ranges != [] {
      var rest := ranges[1..];
      CoversMeans(rest, i);
      if Covers(rest, i) {
        var k :| 0 <= k < |rest| && rest[k].start <= i < rest[k].end;
        assert ranges[k + 1] == rest[k];
      } else {
        forall k | 0 < k < |ranges| ensures !(ranges[k].start <= i < ranges[k].end) {
          assert ranges[k] == rest[k - 1];
        }
      }
    }
  }

  /** Nonempty, ascending, not overlapping, none starting before `from`. */
  predicate Ordered(ranges: seq<Range>, from: nat) {
    ranges == [] || (from <= ranges[0].start < ranges[0].end && Ordered(ranges[1..], ranges[0].end))
  }

  /** The leftmost greedy set: matches that do not overlap, and no match left starting outside them. */
  ghost predicate IsGreedy(fold: Fold, q: string, line: string, from: nat, ranges: seq<Range>) {
    && Ordered(ranges, from)
    && (forall r | r in ranges :: r.end == r.start + |q| && MatchAt(fold, q, line, r.start))
    && (forall i: nat | from <= i && MatchAt(fold, q, line, i) :: Covers(ranges, i))
  }

  /** What the loop of matchRanges collects from `from` on. */
  function Greedy(fold: Fold, q: string, line: string, from: nat): (ranges: seq<Range>)
    requires q != ""
    decreases |line| - from
  {
    match Exec(fold, q, line, from)
    case None => []
    case Some(start) => [Range(start, start + |q|)] + Greedy(fold, q, line, start + |q|)
  }

  /** matchRanges. */
  method MatchRanges(fold: Fold, q: string, line: string) returns (ranges: seq<Range>)
    requires q != ""
    ensures ranges == Greedy(fold, q, line, 0)
    ensures IsGreedy(fold, q, line, 0, ranges)
    ensures ranges != [] <==> Matches(fold, q, line)
  {
    ranges := [];
    var lastIndex := 0;
    while true
      invariant lastIndex <= |line|
      invariant Greedy(fold, q, line, 0) == ranges + Greedy(fold, q, line, lastIndex)
      decreases |line| - lastIndex
    {
      var m := Exec(fold, q, line, lastIndex);
      if m.None? {
        break;
      }
      var start := m.value;
      var end := start + |q|;
      Assoc(ranges, [Range(start, end)], Greedy(fold, q, line, end));
      ranges := ranges + [Range(start, end)];
      lastIndex := end;
    }
    assert ranges + [] == ranges;
    GreedyIsGreedy(fold, q, line, 0);
    GreedyFinds(fold, q, line);
  }

  /** There is a range if and only if the line matches. */
  lemma GreedyFinds(fold: Fold, q: string, line: string)
    requires q != ""
    ensures Greedy(fold, q, line, 0) != [] <==> Matches(fold, q, line)
  {
    var first := Exec(fold, q, line, 0);
    if first.Some? {
      assert Greedy(fold, q, line, 0)[0] == Range(first.value, first.value + |q|);
    }
  }

  lemma {:induction false} GreedyIsGreedy(fold: Fold, q: string, line: string, from: nat)
    requires q != ""
    ensures IsGreedy(fold, q, line, from, Greedy(fold, q, line, from))
    decreases |line| - from
  {
    var first := Exec(fold, q, line, from);
    if first.Some? {
      var end := first.value + |q|;
      GreedyIsGreedy(fold, q, line, end);
      GreedyGrows(fold, q, line, from, first.value, Greedy(fold, q, line, end));
    } else {
      assert Greedy(fold, q, line, from) == [];
    }
  }

  lemma GreedyGrows(fold: Fold, q: string, line: string, from: nat, start: nat, rest: seq<Range>)
    requires q != "" && Exec(fold, q, line, from) == Some(start) && IsGreedy(fold, q, line, start + |q|, rest)
    ensures IsGreedy(fold, q, line, from, [Range(start, start + |q|)] + rest)
  {
    var ranges := [Range(start, start + |q|)] + rest;
    assert ranges[0] == Range(start, start + |q|) && ranges[1..] == rest;
    forall i: nat | from <= i && MatchAt(fold, q, line, i) ensures Covers(ranges, i) {
      assert start + |q| <= i ==> Covers(rest, i);
    }
  }

  /** There is only one greedy set. */
  lemma {:induction false} GreedyIsUnique(fold: Fold, q: string, line: string, from: nat, ranges: seq<Range>)
    requires q != "" && IsGreedy(fold, q, line, from, ranges)
    ensures ranges == Greedy(fold, q, line, from)
    decreases |ranges|
  {
    var first := Exec(fold, q, line, from);
    if ranges == [] {
      assert forall i: nat :: !Covers(ranges, i);
    } else {
      var r, rest := ranges[0], ranges[1..];
      assert r in ranges;
      assert first.Some? && first.value <= r.start;
      NothingBefore(rest, r.end, first.value);
      assert Covers(ranges, first.value);
      forall i: nat | r.end <= i && MatchAt(fold, q, line, i) ensures Covers(rest, i) {
        assert Covers(ranges, i);
      }
      GreedyIsUnique(fold, q, line, r.end, rest);
    }
  }

  lemma {:induction false} NothingBefore(ranges: seq<Range>, from: nat, i: nat)
    requires Ordered(ranges, from) && i < from
    ensures !Covers(ranges, i)
  {
    if ranges != [] {
      NothingBefore(ranges[1..], ranges[0].end, i);
    }
  }

  // ---------------------------------------------------------------- scanning the buffer

  /** The matching line indices from `from` on, ascending. */
  function Scan(fold: Fold, q: string, lines: seq<string>, from: nat): (hits: seq<nat>)
    decreases |lines| - from
  {
    if from >= |lines| then []
    else
      var rest := Scan(fold, q, lines, from + 1);
      if Matches(fold, q, lines[from]) then [from] + rest else rest
  }

  lemma {:induction false} ScanExact(fold: Fold, q: string, lines: seq<string>, from: nat, i: nat)
    ensures i in Scan(fold, q, lines, from) <==> from <= i < |lines| && Matches(fold, q, lines[i])
    decreases |lines| - from
  {
    if from < |lines| {
      ScanExact(fold, q, lines, from + 1, i);
    }
  }

  predicate Ascending(hits: seq<nat>, from: nat, to: nat) {
    && (forall k | 0 <= k < |hits| :: from <= hits[k] < to)
    && (forall j, k | 0 <= j < k < |hits| :: hits[j] < hits[k])
  }

  lemma PrependAscends(i: nat, rest: seq<nat>, to: nat)
    requires i < to && Ascending(rest, i + 1, to)
    ensures Ascending([i] + rest, i, to)
  {
    var hits := [i] + rest;
    forall k | 0 <= k < |hits| ensures i <= hits[k] < to && (k > 0 ==> hits[k] == rest[k - 1] > i) {
    }
  }

  lemma {:induction false} ScanAscends(fold: Fold, q: string, lines: seq<string>, from: nat)
    ensures Ascending(Scan(fold, q, lines, from), from, |lines|)
    decreases |lines| - from
  {
    if from < |lines| {
      ScanAscends(fold, q, lines, from + 1);
      var rest := Scan(fold, q, lines, from + 1);
      PrependAscends(from, rest, |lines|);
    }
  }

  /** scanLines; a negative start counts as 0. */
  method ScanLines(fold: Fold, q: string, lines: seq<string>, from: int) returns (hits: seq<nat>)
    ensures hits == Scan(fold, q, lines, if from < 0 then 0 else from)
  {
    hits := [];
    var i := if from < 0 then 0 else from;
    ghost var all := Scan(fold, q, lines, i);
    while i < |lines|
      invariant 0 <= i
      invariant all == hits + Scan(fold, q, lines, i)
    {
      Assoc(hits, [i], Scan(fold, q, lines, i + 1));
      if Matches(fold, q, lines[i]) {
        hits := hits + [i];
      }
      i := i + 1;
    }
    assert all == hits;
  }

  // ---------------------------------------------------------------- painting a line

  function SeverityClass(s: JsonGrammar.Severity): string {
    match s
    case SevError => "font-bold text-red-400"
    case SevWarn => "font-bold text-yellow-300"
    case SevInfo => "font-bold text-emerald-300"
    case SevDebug => "font-bold text-slate-400"
  }

  function KindClass(k: JsonGrammar.Kind): string {
    match k
    case TextTok => "text-slate-500"
    case PunctTok => "text-slate-500"
    case KeyTok => "text-sky-300"
    case StringTok => "text-emerald-300"
    case NumberTok => "text-amber-300"
    case KeywordTok => "text-fuchsia-300"
    case LevelTok => "text-emerald-300"
  }

  function TokenClass(t: JsonGrammar.Token): string {
    if t.severity.Some? then SeverityClass(t.severity.value) else KindClass(t.kind)
  }

  /** A level stands out by weight from everything else, and each severity has a colour of its own. */
  lemma LevelsStandOut(t: JsonGrammar.Token, u: JsonGrammar.Token)
    ensures t.severity.Some? <==> "font-bold " <= TokenClass(t)
    ensures t.severity.Some? && u.severity.Some? ==> (TokenClass(t) == TokenClass(u) <==> t.severity == u.severity)
  {
    assert KindClass(t.kind)[0] == 't';
  }

  /** Keys, strings, numbers, words and punctuation each have a colour of their own. */
  lemma KindsDiffer(j: JsonGrammar.Kind, k: JsonGrammar.Kind)
    requires !j.LevelTok? && !k.LevelTok? && !j.TextTok? && !k.TextTok?
    ensures KindClass(j) == KindClass(k) <==> j == k
  {
    assert KindClass(JsonGrammar.PunctTok)[5..7] == "sl" && KindClass(JsonGrammar.KeyTok)[5..7] == "sk";
    assert KindClass(JsonGrammar.StringTok)[5..7] == "em" && KindClass(JsonGrammar.NumberTok)[5..7] == "am";
    assert KindClass(JsonGrammar.KeywordTok)[5..7] == "fu";
  }

  datatype Piece = Piece(text: string, cls: string)
  datatype Segment = Segment(text: string, cls: string, hit: bool)

  /** One character as it is shown. */
  datatype Cell = Cell(c: char, cls: string, hit: bool)

  function PieceText(pieces: seq<Piece>): string {
    if pieces == [] then "" else pieces[0].text + PieceText(pieces[1..])
  }

  function SegmentText(segments: seq<Segment>): string {
    if segments == [] then "" else SegmentText(segments[..|segments| - 1]) + segments[|segments| - 1].text
  }

  function Cells(text: string, cls: string, hit: bool): seq<Cell> {
    seq(|text|, k requires 0 <= k < |text| => Cell(text[k], cls, hit))
  }

  /** What the segments put on screen. */
  function Painted(segments: seq<Segment>): seq<Cell> {
    if segments == [] then []
    else
      var last := segments[|segments| - 1];
      Painted(segments[..|segments| - 1]) + Cells(last.text, last.cls, last.hit)
  }

  function Shown(p: Piece, ranges: seq<Range>, pos: nat): seq<Cell> {
    seq(|p.text|, k requires 0 <= k < |p.text| => Cell(p.text[k], p.cls, Covers(ranges, pos + k)))
  }

  /** What should be: each character with its own piece's class, a hit exactly where a range covers its offset. */
  function Expected(pieces: seq<Piece>, ranges: seq<Range>, pos: nat): seq<Cell> {
    if pieces == [] then []
    else
      var p := pieces[0];
      Shown(p, ranges, pos) + Expected(pieces[1..], ranges, pos + |p.text|)
  }

  function PiecesOf(text: string, tokens: Option<seq<JsonGrammar.Token>>): seq<Piece> {
    match tokens
    case None => [Piece(text, "")]
    case Some(ts) => seq(|ts|, i requires 0 <= i < |ts| => Piece(ts[i].text, TokenClass(ts[i])))
  }

  /** A line is cut by its tokens, in their order and colours, and is one colourless piece if it has none. */
  lemma PiecesExactly(text: string, tokens: Option<seq<JsonGrammar.Token>>)
    ensures tokens.None? ==> PiecesOf(text, tokens) == [Piece(text, "")]
    ensures tokens.Some? ==>
              && |PiecesOf(text, tokens)| == |tokens.value|
              && forall i | 0 <= i < |tokens.value| ::
                   && PiecesOf(text, tokens)[i].text == tokens.value[i].text
                   && PiecesOf(text, tokens)[i].cls == TokenClass(tokens.value[i])
  {
  }

  lemma {:induction false} TokensSpellPieces(text: string, ts: seq<JsonGrammar.Token>)
    ensures PieceText(PiecesOf(text, Some(ts))) == JsonGrammar.Texts(ts)
  {
    if ts != [] {
      assert PiecesOf(text, Some(ts))[1..] == PiecesOf(text, Some(ts[1..]));
      TokensSpellPieces(text, ts[1..]);
    }
  }

  lemma {:induction false} PaintedSpells(segments: seq<Segment>, cells: seq<Cell>)
    requires Painted(segments) == cells
    ensures |SegmentText(segments)| == |cells|
    ensures forall k | 0 <= k < |cells| :: SegmentText(segments)[k] == cells[k].c
  {
    if segments != [] {
      var init := segments[..|segments| - 1];
      PaintedSpells(init, Painted(init));
    }
  }

  // ---------------------------------------------------------------- segmentLine

  lemma {:induction false} ExpectedLength(pieces: seq<Piece>, ranges: seq<Range>, pos: nat)
    ensures |Expected(pieces, ranges, pos)| == |PieceText(pieces)|
    ensures forall k | 0 <= k < |PieceText(pieces)| ::
              Expected(pieces, ranges, pos)[k].c == PieceText(pieces)[k] &&
                  Expected(pieces, ranges, pos)[k].hit == Covers(ranges, pos + k)
  {
    if pieces != [] {
      var n := |pieces[0].text|;
      ExpectedLength(pieces[1..], ranges, pos + n);
      forall k | 0 <= k < |PieceText(pieces)|
        ensures Expected(pieces, ranges, pos)[k].c == PieceText(pieces)[k]
        ensures Expected(pieces, ranges, pos)[k].hit == Covers(ranges, pos + k)
      {
        if k >= n {
          assert Expected(pieces, ranges, pos)[k] == Expected(pieces[1..], ranges, pos + n)[k - n];
          assert PieceText(pieces)[k] == PieceText(pieces[1..])[k - n];
        }
      }
    }
  }

  /** The expected cell at an offset inside the first piece of `pieces`, and where the later pieces begin. */
  lemma {:induction false} ExpectedAt(pieces: seq<Piece>, ranges: seq<Range>, pos: nat, i: nat, x: nat)
    requires i < |pieces| && x < |pieces[i].text|
    ensures |PieceText(pieces[..i])| + x < |Expected(pieces, ranges, pos)| &&
        |PieceText(pieces[..i])| + x < |PieceText(pieces)|
    ensures Expected(pieces, ranges, pos)[|PieceText(pieces[..i])| + x]
         == Cell(PieceText(pieces)[|PieceText(pieces[..i])| + x], pieces[i].cls,
                 Covers(ranges, pos + |PieceText(pieces[..i])| + x))
  {
    ExpectedLength(pieces, ranges, pos);
    if i == 0 {
      assert pieces[..0] == [];
    } else {
      assert pieces[..i][1..] == pieces[1..][..i - 1];
      ExpectedAt(pieces[1..], ranges, pos + |pieces[0].text|, i - 1, x);
    }
  }

  lemma {:induction false} PieceTextSnoc(pieces: seq<Piece>, i: nat)
    requires i < |pieces|
    ensures |PieceText(pieces[..i + 1])| == |PieceText(pieces[..i])| + |pieces[i].text|
  {
    if i == 0 {
      assert pieces[..1][1..] == [];
    } else {
      assert pieces[..i + 1][1..] == pieces[1..][..i];
      assert pieces[..i][1..] == pieces[1..][..i - 1];
      PieceTextSnoc(pieces[1..], i - 1);
    }
  }

  /** One more segment paints one more stretch, if every cell of the stretch is as the segment says. */
  lemma PaintMore(segments: seq<Segment>, cells: seq<Cell>, text: string, cursor: nat, end: nat, cls: string, hit: bool)
    requires cursor <= end <= |text| == |cells|
    requires Painted(segments) == cells[..cursor]
    requires forall x | cursor <= x < end :: cells[x] == Cell(text[x], cls, hit)
    ensures Painted(segments + [Segment(text[cursor..end], cls, hit)]) == cells[..end]
  {
    var more := segments + [Segment(text[cursor..end], cls, hit)];
    assert more[..|more| - 1] == segments;
    assert Cells(text[cursor..end], cls, hit) == cells[cursor..end];
  }

  lemma {:induction false} PlainPieces(pieces: seq<Piece>, pos: nat, segments: seq<Segment>)
    requires |segments| == |pieces|
    requires forall i | 0 <= i < |pieces| :: segments[i] == Segment(pieces[i].text, pieces[i].cls, false)
    ensures Painted(segments) == Expected(pieces, [], pos)
    decreases |pieces|
  {
    if pieces != [] {
      var n := |pieces| - 1;
      PlainPieces(pieces[..n], pos, segments[..n]);
      assert pieces == pieces[..n] + [pieces[n]];
      ExpectedSnoc(pieces[..n], pieces[n], pos);
    }
  }

  lemma ShownPlain(p: Piece, pos: nat)
    ensures Shown(p, [], pos) == Cells(p.text, p.cls, false)
  {
    forall k | 0 <= k < |p.text| ensures Shown(p, [], pos)[k] == Cells(p.text, p.cls, false)[k] {
      assert !Covers([], pos + k);
    }
  }

  lemma {:induction false} ExpectedSnoc(init: seq<Piece>, last: Piece, pos: nat)
    ensures Expected(init + [last], [], pos) == Expected(init, [], pos) + Cells(last.text, last.cls, false)
  {
    if init == [] {
      assert init + [last] == [last];
      ShownPlain(last, pos);
    } else {
      var p, rest := init[0], init[1..];
      assert init == [p] + rest;
      ExpectedSnoc(rest, last, pos + |p.text|);
      ExpectedFirst(p, rest, pos);
      ExpectedFirst(p, rest + [last], pos);
      assert init + [last] == [p] + (rest + [last]);
      Assoc(Shown(p, [], pos), Expected(rest, [], pos + |p.text|), Cells(last.text, last.cls, false));
    }
  }

  lemma ExpectedFirst(p: Piece, rest: seq<Piece>, pos: nat)
    ensures Expected([p] + rest, [], pos) == Shown(p, [], pos) + Expected(rest, [], pos + |p.text|)
  {
    assert ([p] + rest)[1..] == rest;
  }

  /** The ranges before r no longer matter to offsets from the cursor on. */
  ghost predicate Passed(ranges: seq<Range>, r: nat, cursor: nat)
    requires r <= |ranges|
  {
    Ordered(ranges[r..], 0) && forall x: nat | cursor <= x :: Covers(ranges, x) == Covers(ranges[r..], x)
  }

  lemma PassOne(ranges: seq<Range>, r: nat, cursor: nat)
    requires r < |ranges| && Passed(ranges, r, cursor) && ranges[r].end <= cursor
    ensures Passed(ranges, r + 1, cursor)
  {
    assert ranges[r..][1..] == ranges[r + 1..];
    Later(ranges[r + 1..], ranges[r].end);
  }

  lemma Later(ranges: seq<Range>, from: nat)
    requires Ordered(ranges, from)
    ensures Ordered(ranges, 0)
  {
  }

  lemma PlainUpTo(ranges: seq<Range>, r: nat, cursor: nat, end: nat)
    requires r <= |ranges| && Passed(ranges, r, cursor)
    requires r < |ranges| ==> end <= ranges[r].start
    ensures forall x | cursor <= x < end :: !Covers(ranges, x)
  {
    forall x: nat | cursor <= x < end ensures !Covers(ranges, x) {
      if r < |ranges| {
        NothingBefore(ranges[r..], ranges[r].start, x);
      } else {
        assert ranges[r..] == [];
      }
    }
  }

  lemma HitWithin(ranges: seq<Range>, r: nat, cursor: nat)
    requires r < |ranges| && Passed(ranges, r, cursor)
    ensures forall x: nat | cursor <= x && ranges[r].start <= x < ranges[r].end :: Covers(ranges, x)
    ensures ranges[r].start < ranges[r].end
  {
    assert ranges[r..][0] == ranges[r];
  }

  /** What the loops of segmentLine know of the piece they are in. */
  ghost predicate InPiece(piece: Piece, text: string, cells: seq<Cell>, ranges: seq<Range>, pos: nat) {
    && |text| == |cells| && pos + |piece.text| <= |text|
    && forall x: nat | pos <= x < pos + |piece.text| :: cells[x] == Cell(text[x], piece.cls, Covers(ranges, x))
  }

  lemma PieceAt(pieces: seq<Piece>, ranges: seq<Range>, i: nat)
    requires i < |pieces|
    ensures InPiece(pieces[i], PieceText(pieces), Expected(pieces, ranges, 0), ranges, |PieceText(pieces[..i])|)
  {
    var pos, cells, text := |PieceText(pieces[..i])|, Expected(pieces, ranges, 0), PieceText(pieces);
    ExpectedLength(pieces, ranges, 0);
    WithinText(pieces, i);
    forall x: nat | pos <= x < pos + |pieces[i].text|
      ensures cells[x] == Cell(text[x], pieces[i].cls, Covers(ranges, x)) {
      ExpectedAt(pieces, ranges, 0, i, x - pos);
    }
  }

  lemma {:induction false} WithinText(pieces: seq<Piece>, i: nat)
    requires i < |pieces|
    ensures |PieceText(pieces[..i])| + |pieces[i].text| <= |PieceText(pieces)|
  {
    if i > 0 {
      assert pieces[..i][1..] == pieces[1..][..i - 1];
      WithinText(pieces[1..], i - 1);
    }
  }

  /** The inner loop of segmentLine: cut one piece at the boundaries of the ranges. */
  method CutPiece(text: string, piece: Piece, ranges: seq<Range>, pos: nat, r0: nat, segments0: seq<Segment>,
      ghost cells: seq<Cell>)
    returns (segments: seq<Segment>, r: nat)
    requires InPiece(piece, text, cells, ranges, pos)
    requires r0 <= |ranges| && Passed(ranges, r0, pos) && Painted(segments0) == cells[..pos]
    ensures r <= |ranges| && Passed(ranges, r, pos + |piece.text|) && Painted(segments) == cells[..pos + |piece.text|]
  {
    segments, r := segments0, r0;
    var pieceEnd := pos + |piece.text|;
    var cursor := pos;
    while cursor < pieceEnd
      invariant pos <= cursor <= pieceEnd && r <= |ranges|
      invariant Passed(ranges, r, cursor)
      invariant Painted(segments) == cells[..cursor]
    {
      while r < |ranges| && ranges[r].end <= cursor
        invariant r <= |ranges| && Passed(ranges, r, cursor)
      {
        PassOne(ranges, r, cursor);
        r := r + 1;
      }
      if r == |ranges| || ranges[r].start >= pieceEnd {
        PlainUpTo(ranges, r, cursor, pieceEnd);
        PaintMore(segments, cells, text, cursor, pieceEnd, piece.cls, false);
        segments := segments + [Segment(text[cursor..pieceEnd], piece.cls, false)];
        cursor := pieceEnd;
        break;
      }
      var range := ranges[r];
      var hitStart := if range.start > cursor then range.start else cursor;
      if hitStart > cursor {
        PlainUpTo(ranges, r, cursor, hitStart);
        PaintMore(segments, cells, text, cursor, hitStart, piece.cls, false);
        segments := segments + [Segment(text[cursor..hitStart], piece.cls, false)];
      }
      var hitEnd := if range.end < pieceEnd then range.end else pieceEnd;
      HitWithin(ranges, r, cursor);
      PaintMore(segments, cells, text, hitStart, hitEnd, piece.cls, true);
      segments := segments + [Segment(text[hitStart..hitEnd], piece.cls, true)];
      cursor := hitEnd;
    }
  }

  /**
   segmentLine: every character of the line is shown once, in order, in its own token's colour, and marked as a hit
   exactly when its offset lies in a range.
   */
  method SegmentLine(text: string, tokens: Option<seq<JsonGrammar.Token>>, ranges: seq<Range>)
    returns (segments: seq<Segment>)
    requires tokens.Some? ==> JsonGrammar.Texts(tokens.value) == text
    requires Ordered(ranges, 0)
    ensures Painted(segments) == Expected(PiecesOf(text, tokens), ranges, 0)
    ensures SegmentText(segments) == text
  {
    var pieces := PiecesOf(text, tokens);
    PiecesSpellText(text, tokens);
    if |ranges| == 0 {
      segments := seq(|pieces|, i requires 0 <= i < |pieces| => Segment(pieces[i].text, pieces[i].cls, false));
      assert ranges == [];
      PlainPieces(pieces, 0, segments);
    } else {
      segments := CutPieces(text, pieces, ranges);
    }
    HitsAreExact(text, pieces, ranges, segments);
  }

  /** The outer loop of segmentLine. */
  method CutPieces(text: string, pieces: seq<Piece>, ranges: seq<Range>) returns (segments: seq<Segment>)
    requires PieceText(pieces) == text && Ordered(ranges, 0)
    ensures Painted(segments) == Expected(pieces, ranges, 0)
  {
    segments := [];
    var pos: nat, r: nat := 0, 0;
    ghost var cells := Expected(pieces, ranges, 0);
    ExpectedLength(pieces, ranges, 0);
    assert ranges[0..] == ranges;
    for i := 0 to |pieces|
      invariant pos == |PieceText(pieces[..i])| <= |text|
      invariant r <= |ranges| && Passed(ranges, r, pos)
      invariant Painted(segments) == cells[..pos]
    {
      PieceAt(pieces, ranges, i);
      PieceTextSnoc(pieces, i);
      segments, r := CutPiece(text, pieces[i], ranges, pos, r, segments, cells);
      pos := pos + |pieces[i].text|;
    }
    assert pieces[..|pieces|] == pieces;
    assert cells[..pos] == cells;
  }

  /** Read back from the screen: the text is the line, and the hits are what lies in some range. */
  lemma HitsAreExact(text: string, pieces: seq<Piece>, ranges: seq<Range>, segments: seq<Segment>)
    requires PieceText(pieces) == text && Painted(segments) == Expected(pieces, ranges, 0)
    ensures SegmentText(segments) == text
    ensures |Painted(segments)| == |text|
    ensures forall x: nat | x < |text| :: Painted(segments)[x].hit <==> Inside(ranges, x)
  {
    PaintedSpells(segments, Painted(segments));
    ExpectedLength(pieces, ranges, 0);
    forall x: nat | x < |text| ensures Painted(segments)[x].hit <==> Inside(ranges, x) {
      CoversMeans(ranges, x);
    }
  }

  lemma PiecesSpellText(text: string, tokens: Option<seq<JsonGrammar.Token>>)
    requires tokens.Some? ==> JsonGrammar.Texts(tokens.value) == text
    ensures PieceText(PiecesOf(text, tokens)) == text
  {
    match tokens
    case None => assert PiecesOf(text, tokens)[1..] == [];
    case Some(ts) => TokensSpellPieces(text, ts);
  }
}
