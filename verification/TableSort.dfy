/**
 The order of table cells (web/src/utils/tableSort.ts): empty ones last, then numbers, ages and text by shape.

 What Number() reads and how localeCompare orders text are the browser's; numbers are exact.
 */
module TableSort {
  import opened Wrappers

  import opened JsText
  import opened Ages

  type Numbers = string -> Option<real>        // Number(value), None where it is not finite
  type Locale = (string, string) -> real       // a.localeCompare(b)

  const EMPTYISH := {"", "<none>", "<unknown>", "<invalid>"}

  function ParseNumeric(number: Numbers, value: string): Option<real> {
    if Trim(value) == "" then None else number(value)
  }

  function Compare(number: Numbers, locale: Locale, a: string, b: string): real {
    var aEmpty, bEmpty := Trim(a) in EMPTYISH, Trim(b) in EMPTYISH;
    if aEmpty || bEmpty then (if aEmpty == bEmpty then 0.0 else if aEmpty then 1.0 else -1.0)
    else
      var aNum, bNum := ParseNumeric(number, a), ParseNumeric(number, b);
      if aNum.Some? && bNum.Some? then aNum.value - bNum.value
      else
        var aAge := if aNum.None? then ParsedAge(a) else None;
        var bAge := if bNum.None? then ParsedAge(b) else None;
        if aAge.Some? && bAge.Some? then aAge.value as real / 1000.0 - bAge.value as real / 1000.0
        else
          var aRank := if aNum.Some? then 0 else if aAge.Some? then 1 else 2;
          var bRank := if bNum.Some? then 0 else if bAge.Some? then 1 else 2;
          if aRank != bRank then (aRank - bRank) as real else locale(a, b)
  }

  // ---------------------------------------------------------------- the order in other words

  /** What a cell is sorted as. */
  datatype Shape = Number(value: real) | Age(millis: nat) | Text(text: string) | Blank

  function ShapeOf(number: Numbers, cell: string): Shape {
    if Trim(cell) in EMPTYISH then Blank
    else if ParseNumeric(number, cell).Some? then Number(ParseNumeric(number, cell).value)
    else if ParsedAge(cell).Some? then Age(ParsedAge(cell).value)
    else Text(cell)
  }

  function Rank(s: Shape): nat {
    match s
    case Number(_) => 0
    case Age(_) => 1
    case Text(_) => 2
    case Blank => 3
  }

  /** Shapes in rank order, and within a shape by its own value. */
  ghost predicate NotAfter(locale: Locale, a: Shape, b: Shape) {
    || Rank(a) < Rank(b)
    || (Rank(a) == Rank(b) &&
        match a
        case Number(x) => x <= b.value
        case Age(x) => x <= b.millis
        case Text(x) => locale(x, b.text) <= 0.0
        case Blank => true)
  }

  /** localeCompare is a total preorder. */
  ghost predicate Preorder(locale: Locale) {
    && (forall a, b :: locale(a, b) <= 0.0 <==> locale(b, a) >= 0.0)
    && (forall a, b, c :: locale(a, b) <= 0.0 && locale(b, c) <= 0.0 ==> locale(a, c) <= 0.0)
  }

  /** Comparing two cells is comparing their shapes. */
  lemma ComparesShapes(number: Numbers, locale: Locale, a: string, b: string)
    requires Preorder(locale)
    ensures Compare(number, locale, a, b) <= 0.0 <==> NotAfter(locale, ShapeOf(number, a), ShapeOf(number, b))
    ensures Compare(number, locale, a, b) >= 0.0 <==> NotAfter(locale, ShapeOf(number, b), ShapeOf(number, a))
  {
  }

  lemma NotAfterIsPreorder(locale: Locale, a: Shape, b: Shape, c: Shape)
    requires Preorder(locale)
    ensures NotAfter(locale, a, b) || NotAfter(locale, b, a)
    ensures NotAfter(locale, a, b) && NotAfter(locale, b, c) ==> NotAfter(locale, a, c)
  {
  }

  /** The comparator is a total preorder over cells of any mix of shapes, if localeCompare is one. */
  lemma ComparatorIsTotalPreorder(number: Numbers, locale: Locale, a: string, b: string, c: string)
    requires Preorder(locale)
    ensures Compare(number, locale, a, a) == 0.0
    ensures Compare(number, locale, a, b) < 0.0 <==> Compare(number, locale, b, a) > 0.0
    ensures Compare(number, locale, a, b) <= 0.0 && Compare(number, locale, b, c) <= 0.0 ==>
        Compare(number, locale, a, c) <= 0.0
  {
    ComparesShapes(number, locale, a, a);
    ComparesShapes(number, locale, a, b);
    ComparesShapes(number, locale, b, a);
    ComparesShapes(number, locale, b, c);
    ComparesShapes(number, locale, a, c);
    NotAfterIsPreorder(locale, ShapeOf(number, a), ShapeOf(number, a), ShapeOf(number, a));
    NotAfterIsPreorder(locale, ShapeOf(number, a), ShapeOf(number, b), ShapeOf(number, c));
  }

  // ---------------------------------------------------------------- sorting with it

  ghost predicate Sorted(number: Numbers, locale: Locale, cells: seq<string>) {
    forall i, j | 0 <= i < j < |cells| :: Compare(number, locale, cells[i], cells[j]) <= 0.0
  }

  /** How many cells do not come after x. */
  function CountUpTo(number: Numbers, locale: Locale, cells: seq<string>, x: string): nat {
    if cells == [] then 0
    else (if Compare(number, locale, cells[0], x) <= 0.0 then 1 else 0) + CountUpTo(number, locale, cells[1..], x)
  }

  lemma {:induction false} CountAppend(number: Numbers, locale: Locale, s: seq<string>, t: seq<string>, x: string)
    ensures CountUpTo(number, locale, s + t, x) == CountUpTo(number, locale, s, x) + CountUpTo(number, locale, t, x)
  {
    if s == [] {
      assert s + t == t;
    } else {
      assert (s + t)[1..] == s[1..] + t;
      CountAppend(number, locale, s[1..], t, x);
    }
  }

  /** The count does not depend on the order of the cells. */
  lemma {:induction false} CountIsOfTheMultiset(number: Numbers, locale: Locale, s: seq<string>, t: seq<string>,
      x: string)
    requires multiset(s) == multiset(t)
    ensures CountUpTo(number, locale, s, x) == CountUpTo(number, locale, t, x)
    decreases |s|
  {
    assert |multiset(s)| == |s| && |multiset(t)| == |t|;
    if s != [] {
      assert s[0] in multiset(t);
      var k :| 0 <= k < |t| && t[k] == s[0];
      TakeOut(s, t, k);
      CountIsOfTheMultiset(number, locale, s[1..], t[..k] + t[k + 1..], x);
      CountWithout(number, locale, t, k, x);
    }
  }

  lemma OneBetween(t: seq<string>, k: nat)
    requires k < |t|
    ensures t == t[..k] + ([t[k]] + t[k + 1..])
  {
  }

  lemma CountFirst(number: Numbers, locale: Locale, first: string, rest: seq<string>, x: string)
    ensures CountUpTo(number, locale, [first] + rest, x)
         == CountUpTo(number, locale, rest, x) + if Compare(number, locale, first, x) <= 0.0 then 1 else 0
  {
    assert ([first] + rest)[1..] == rest;
  }

  lemma CountWithout(number: Numbers, locale: Locale, t: seq<string>, k: nat, x: string)
    requires k < |t|
    ensures CountUpTo(number, locale, t, x)
         == CountUpTo(number, locale, t[..k] + t[k + 1..], x) + if Compare(number, locale, t[k], x) <= 0.0 then 1 else 0
  {
    var front, back := t[..k], t[k + 1..];
    CountAppend(number, locale, front, back, x);
    CountAppend(number, locale, front, [t[k]] + back, x);
    OneBetween(t, k);
    CountFirst(number, locale, t[k], back, x);
  }

  lemma TakeOut(s: seq<string>, t: seq<string>, k: nat)
    requires s != [] && k < |t| && t[k] == s[0] && multiset(s) == multiset(t)
    ensures multiset(s[1..]) == multiset(t[..k] + t[k + 1..])
  {
    assert s == [s[0]] + s[1..] && t == t[..k] + [t[k]] + t[k + 1..];
    Cancel(s[0], multiset(s[1..]), multiset(t[..k] + t[k + 1..]));
  }

  lemma Cancel(x: string, m: multiset<string>, n: multiset<string>)
    requires multiset{x} + m == multiset{x} + n
    ensures m == n
  {
    assert m == (multiset{x} + m) - multiset{x} && n == (multiset{x} + n) - multiset{x};
  }

  lemma {:induction false} CountAll(number: Numbers, locale: Locale, cells: seq<string>, x: string)
    requires forall i | 0 <= i < |cells| :: Compare(number, locale, cells[i], x) <= 0.0
    ensures CountUpTo(number, locale, cells, x) == |cells|
  {
    if cells != [] {
      CountAll(number, locale, cells[1..], x);
    }
  }

  lemma {:induction false} CountNone(number: Numbers, locale: Locale, cells: seq<string>, x: string)
    requires forall i | 0 <= i < |cells| :: Compare(number, locale, cells[i], x) > 0.0
    ensures CountUpTo(number, locale, cells, x) == 0
  {
    if cells != [] {
      CountNone(number, locale, cells[1..], x);
    }
  }

  lemma CountAtMost(number: Numbers, locale: Locale, cells: seq<string>, x: string)
    ensures CountUpTo(number, locale, cells, x) <= |cells|
  {
    if cells != [] {
      CountAtMost(number, locale, cells[1..], x);
    }
  }

  lemma NoSmallerElsewhere(number: Numbers, locale: Locale, s: seq<string>, t: seq<string>, i: nat)
    requires Preorder(locale) && Sorted(number, locale, s) && Sorted(number, locale, t)
    requires multiset(s) == multiset(t) && i < |s| && i < |t|
    ensures Compare(number, locale, s[i], t[i]) >= 0.0
  {
    var x := s[i];
    if Compare(number, locale, x, t[i]) < 0.0 {
      var front, back := s[..i + 1], t[i..];
      forall k | 0 <= k < |front| ensures Compare(number, locale, front[k], x) <= 0.0 {
        ComparatorIsTotalPreorder(number, locale, x, x, x);
      }
      CountAll(number, locale, front, x);
      assert s == front + s[i + 1..] && t == t[..i] + back;
      CountAppend(number, locale, front, s[i + 1..], x);
      forall k | 0 <= k < |back| ensures Compare(number, locale, back[k], x) > 0.0 {
        ComparatorIsTotalPreorder(number, locale, t[i], back[k], x);
        ComparatorIsTotalPreorder(number, locale, x, t[i], t[i]);
        ComparatorIsTotalPreorder(number, locale, x, back[k], x);
      }
      CountNone(number, locale, back, x);
      CountAppend(number, locale, t[..i], back, x);
      CountAtMost(number, locale, t[..i], x);
      CountIsOfTheMultiset(number, locale, s, t, x);
    }
  }

  /** So a column sorts the same way from whatever order it is in: cells in the same place compare as equal. */
  lemma EveryPermutationSortsAlike(number: Numbers, locale: Locale, s: seq<string>, t: seq<string>)
    requires Preorder(locale) && Sorted(number, locale, s) && Sorted(number, locale, t) && multiset(s) == multiset(t)
    ensures |s| == |t| && forall i | 0 <= i < |s| :: Compare(number, locale, s[i], t[i]) == 0.0
  {
    assert |s| == |multiset(s)| && |t| == |multiset(t)|;
    forall i | 0 <= i < |s| ensures Compare(number, locale, s[i], t[i]) == 0.0 {
      NoSmallerElsewhere(number, locale, s, t, i);
      NoSmallerElsewhere(number, locale, t, s, i);
      ComparatorIsTotalPreorder(number, locale, s[i], t[i], s[i]);
      ComparatorIsTotalPreorder(number, locale, t[i], s[i], s[i]);
    }
  }

  // ---------------------------------------------------------------- what the shapes are

  /** What is blank, what is a number and what is text, in terms of the cell. */
  lemma ShapesExactly(number: Numbers, cell: string)
    ensures ShapeOf(number, cell) == Blank <==>
              Trim(cell) == "" || Trim(cell) == "<none>" || Trim(cell) == "<unknown>" || Trim(cell) == "<invalid>"
    ensures forall x :: ShapeOf(number, cell) == Number(x) <==>
              ShapeOf(number, cell) != Blank && number(cell) == Some(x)
    ensures forall millis: nat :: ShapeOf(number, cell) == Age(millis) <==>
              ShapeOf(number, cell) != Blank && number(cell) == None && ParsedAge(cell) == Some(millis)
    ensures forall text :: ShapeOf(number, cell) == Text(text) <==>
              text == cell && ShapeOf(number, cell) != Blank && number(cell) == None && ParsedAge(cell) == None
  {
  }

  /** Numbers sort as numbers, before ages, which sort before other text; and blanks come last. */
  lemma SortsByShape(number: Numbers, locale: Locale, a: string, b: string)
    requires Trim(a) !in EMPTYISH && Trim(b) !in EMPTYISH
    ensures number(a).Some? && number(b).Some? ==>
              Compare(number, locale, a, b) == number(a).value - number(b).value
    ensures number(a).Some? && number(b).None? ==> Compare(number, locale, a, b) < 0.0
    ensures number(a).None? && number(b).None? && ParsedAge(a).Some? && ParsedAge(b).Some? ==>
              Compare(number, locale, a, b) == (ParsedAge(a).value as real - ParsedAge(b).value as real) / 1000.0
    ensures number(a).None? && number(b).None? && ParsedAge(a).Some? && ParsedAge(b).None? ==>
              Compare(number, locale, a, b) < 0.0
    ensures number(a).None? && number(b).None? && ParsedAge(a).None? && ParsedAge(b).None? ==>
              Compare(number, locale, a, b) == locale(a, b)
  {
  }

  lemma BlanksComeLast(number: Numbers, locale: Locale, a: string, b: string)
    requires ShapeOf(number, b) == Blank
    ensures Compare(number, locale, a, b) == if ShapeOf(number, a) == Blank then 0.0 else -1.0
    ensures Compare(number, locale, b, a) == if ShapeOf(number, a) == Blank then 0.0 else 1.0
  {
  }

  // ---------------------------------------------------------------- a column of ages

  lemma AgesAreNotBlank(cell: string)
    requires ParsedAge(cell).Some?
    ensures Trim(cell) !in EMPTYISH
  {
    AcceptsExactlyAges(cell);
    assert IsAge(Trim(cell)) && Trim(cell) != "";
    assert IsDigit(Trim(cell)[0]);
  }

  /**
   An age cell is sorted as the time that passed, to the minute within a day and to the day beyond, and a timestamp in
   the future as zero; provided only that Number() does not take the cell for a number.
   */
  lemma SortsAsAge(number: Numbers, parseDate: Clock, timestamp: string, now: int, at: int)
    requires timestamp != "" && parseDate(timestamp) == Some(at)
    requires number(FormatAge(parseDate, Some(timestamp), now)) == None
    ensures var shape := ShapeOf(number, FormatAge(parseDate, Some(timestamp), now));
            && shape.Age?
            && (at <= now ==> shape.millis <= now - at < shape.millis + if now - at < 86400000 then 60000 else 86400000)
            && (now <= at ==> shape.millis == 0)
  {
    CellReadsAsAge(parseDate, timestamp, now, at);
    AgesAreNotBlank(FormatAge(parseDate, Some(timestamp), now));
  }

  lemma AgesCompare(number: Numbers, locale: Locale, a: string, b: string)
    requires ShapeOf(number, a).Age? && ShapeOf(number, b).Age?
    ensures Compare(number, locale, a, b) <= 0.0 <==> ShapeOf(number, a).millis <= ShapeOf(number, b).millis
  {
  }

  lemma ShortSortsAsShown(number: Numbers, seconds: nat)
    requires number(Short(seconds)) == None
    ensures ShapeOf(number, Short(seconds)) == Age(ShownMillis(seconds))
  {
    PrintThenParse(seconds);
    AgesAreNotBlank(Short(seconds));
  }

  lemma LessTime(now: int, newer: int, older: int)
    requires newer >= older
    ensures Elapsed(now, newer) <= Elapsed(now, older)
  {
  }

  /** So in a column of ages the newer object never comes behind the older one. */
  lemma NewerSortsFirst(number: Numbers, locale: Locale, parseDate: Clock, newer: string, older: string, now: int)
    requires newer != "" && older != "" && parseDate(newer).Some? && parseDate(older).Some?
    requires parseDate(newer).value >= parseDate(older).value
    requires number(FormatAge(parseDate, Some(newer), now)) == None
    requires number(FormatAge(parseDate, Some(older), now)) == None
    ensures var a, b := FormatAge(parseDate, Some(newer), now), FormatAge(parseDate, Some(older), now);
            Compare(number, locale, a, b) <= 0.0
  {
    var less, more := Elapsed(now, parseDate(newer).value), Elapsed(now, parseDate(older).value);
    LessTime(now, parseDate(newer).value, parseDate(older).value);
    ShortSortsAsShown(number, less);
    ShortSortsAsShown(number, more);
    PrintingLoses(less, more);
    AgesCompare(number, locale, Short(less), Short(more));
  }
}
