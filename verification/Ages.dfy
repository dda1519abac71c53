/**
 Ages as the tables print them (web/src/utils/units.ts) and read them back to sort by (web/src/utils/tableSort.ts).

 A parsed age counts milliseconds, so that every unit is a whole number of them.
 */
module Ages {
  import opened Wrappers

  import opened JsText

  // ---------------------------------------------------------------- numbers

  function Digit(n: nat): (c: char)
    requires n < 10
    ensures IsDigit(c) && c as int - '0' as int == n
  {
    ('0' as int + n) as char
  }

  /** A number as a template literal prints it. */
  function Decimal(n: nat): (s: string)
    ensures s != "" && All(s, IsDigit)
  {
    if n < 10 then [Digit(n)] else Decimal(n / 10) + [Digit(n % 10)]
  }

  /** Number(digits). */
  function Numeral(digits: string): nat
    requires All(digits, IsDigit)
  {
    if digits == "" then 0
    else Numeral(digits[..|digits| - 1]) * 10 + (digits[|digits| - 1] as int - '0' as int)
  }

  lemma {:induction false} DecimalReads(n: nat)
    ensures Numeral(Decimal(n)) == n
  {
    if n < 10 {
      assert [Digit(n)][..0] == "";
    } else {
      DecimalReads(n / 10);
      assert (Decimal(n / 10) + [Digit(n % 10)])[..|Decimal(n / 10)|] == Decimal(n / 10);
    }
  }

  // ---------------------------------------------------------------- parsing

  predicate IsUnit(c: char) {
    c == 's' || c == 'm' || c == 'h' || c == 'd' || c == 'w' || c == 'y'
  }

  /** How long the unit at the head is, 0 if there is none; "ms" is tried before "m". */
  function UnitLength(s: string): (n: nat)
    ensures n <= |s|
  {
    if |s| >= 2 && s[0] == 'm' && s[1] == 's' then 2
    else if s != "" && IsUnit(s[0]) then 1
    else 0
  }

  function MillisOf(unit: char): nat {
    if unit == 's' then 1000
    else if unit == 'm' then 60 * 1000
    else if unit == 'h' then 3600 * 1000
    else if unit == 'd' then 86400 * 1000
    else if unit == 'w' then 604800 * 1000
    else if unit == 'y' then 31536000 * 1000
    else 0
  }

  function UnitMillis(s: string): nat {
    if UnitLength(s) == 0 then 0 else if UnitLength(s) == 2 then 1 else MillisOf(s[0])
  }

  /** How long the token (\d+)(ms|[smhdwy]) at the head is, 0 if there is none. */
  function TokenLength(s: string): (n: nat)
    ensures n <= |s|
  {
    var digits := Span(s, IsDigit);
    if digits == 0 || UnitLength(s[digits..]) == 0 then 0 else digits + UnitLength(s[digits..])
  }

  function TokenMillis(s: string): nat {
    var digits := Span(s, IsDigit);
    Numeral(s[..digits]) * UnitMillis(s[digits..])
  }

  /** All matches from the head on: what they add up to, and how much of the text they are. */
  function Matches(s: string): (r: (nat, nat))
    ensures r.1 <= |s|
    decreases |s|
  {
    if s == "" then (0, 0)
    else if TokenLength(s) == 0 then Matches(s[1..])
    else
      var rest := Matches(s[TokenLength(s)..]);
      (TokenMillis(s) + rest.0, TokenLength(s) + rest.1)
  }

  function ParsedAge(value: string): Option<nat> {
    var s := Trim(value);
    if s == "" then None
    else if Matches(s).1 == |s| && Matches(s).1 > 0 then Some(Matches(s).0) else None
  }

  /** The next match, what it adds, and the text behind it. */
  method NextMatch(s: string) returns (found: bool, millis: nat, length: nat, rest: string)
    ensures !found ==> Matches(s) == (0, 0)
    ensures found ==>
        |rest| < |s| && Matches(s).0 == millis + Matches(rest).0 && Matches(s).1 == length + Matches(rest).1
  {
    rest := s;
    while rest != "" && TokenLength(rest) == 0
      invariant |rest| <= |s| && Matches(s) == Matches(rest)
      decreases |rest|
    {
      rest := rest[1..];
    }
    if rest == "" {
      return false, 0, 0, "";
    }
    MatchFirst(rest);
    return true, TokenMillis(rest), TokenLength(rest), rest[TokenLength(rest)..];
  }

  /** The loop over the matches. */
  method AddUp(s: string) returns (total: nat, consumed: nat)
    ensures (total, consumed) == Matches(s)
  {
    total, consumed := 0, 0;
    var tail := s;
    while true
      invariant Matches(s).0 == total + Matches(tail).0 && Matches(s).1 == consumed + Matches(tail).1
      decreases |tail|
    {
      var found, millis, length, rest := NextMatch(tail);
      if !found {
        break;
      }
      total, consumed, tail := total + millis, consumed + length, rest;
    }
  }

  lemma MatchFirst(s: string)
    requires TokenLength(s) > 0
    ensures var rest := Matches(s[TokenLength(s)..]);
            Matches(s).0 == TokenMillis(s) + rest.0 && Matches(s).1 == TokenLength(s) + rest.1
  {
  }

  /** parseK8sAge. */
  method ParseK8sAge(value: string) returns (r: Option<nat>)
    ensures r == ParsedAge(value)
  {
    var s := Trim(value);
    if s == "" {
      return None;
    }
    var total, consumed := AddUp(s);
    return if consumed == |s| && consumed > 0 then Some(total) else None;
  }

  /** Tokens, one right after the other, to the end. */
  predicate IsAge(s: string)
    decreases |s|
  {
    s == "" || (TokenLength(s) > 0 && IsAge(s[TokenLength(s)..]))
  }

  function AgeMillis(s: string): nat
    requires IsAge(s)
    decreases |s|
  {
    if s == "" then 0 else TokenMillis(s) + AgeMillis(s[TokenLength(s)..])
  }

  /** Counting the characters consumed decides whether the text is tokens throughout. */
  lemma {:induction false} ConsumedAll(s: string)
    ensures Matches(s).1 == |s| <==> IsAge(s)
    ensures IsAge(s) ==> Matches(s).0 == AgeMillis(s)
    decreases |s|
  {
    if s != "" {
      if TokenLength(s) == 0 {
        ConsumedAll(s[1..]);
      } else {
        ConsumedAll(s[TokenLength(s)..]);
      }
    }
  }

  /** The parser takes exactly the sequences of one or more tokens, whitespace around them aside, and adds them up. */
  lemma AcceptsExactlyAges(value: string)
    ensures ParsedAge(value).Some? <==> Trim(value) != "" && IsAge(Trim(value))
    ensures ParsedAge(value).Some? ==> ParsedAge(value).value == AgeMillis(Trim(value))
  {
    ConsumedAll(Trim(value));
  }

  // ---------------------------------------------------------------- ages, spelled out

  datatype AgeToken = AgeToken(digits: string, unit: string)

  const UNITS := {"ms", "s", "m", "h", "d", "w", "y"}

  predicate AreTokens(ts: seq<AgeToken>) {
    forall t | t in ts :: t.digits != "" && All(t.digits, IsDigit) && t.unit in UNITS
  }

  /** Milliseconds, seconds, minutes, hours, days, weeks, and years of 365 days. */
  function Worth(unit: string): nat
    requires unit in UNITS
  {
    if unit == "ms" then 1
    else if unit == "s" then 1000
    else if unit == "m" then 60000
    else if unit == "h" then 3600000
    else if unit == "d" then 86400000
    else if unit == "w" then 7 * 86400000
    else 365 * 86400000
  }

  function AgeText(ts: seq<AgeToken>): string {
    if ts == [] then "" else ts[0].digits + (ts[0].unit + AgeText(ts[1..]))
  }

  function AgeTotal(ts: seq<AgeToken>): nat
    requires AreTokens(ts)
  {
    if ts == [] then 0 else Numeral(ts[0].digits) * Worth(ts[0].unit) + AgeTotal(ts[1..])
  }

  lemma UnitReads(unit: string, rest: string)
    requires unit in UNITS && (rest != "" ==> IsDigit(rest[0]))
    ensures UnitLength(unit + rest) == |unit| && UnitMillis(unit + rest) == Worth(unit)
    ensures !IsDigit((unit + rest)[0])
  {
    assert |unit| == 1 || unit == "ms";
    assert (unit + rest)[0] == unit[0];
    if |unit| == 1 && rest != "" {
      assert (unit + rest)[1] == rest[0];
    } else if |unit| == 2 {
      assert (unit + rest)[1] == 's';
    }
  }

  lemma AgeTextStarts(ts: seq<AgeToken>)
    requires AreTokens(ts)
    ensures AgeText(ts) != "" ==> ts != [] && IsDigit(AgeText(ts)[0])
    ensures ts != [] ==> AgeText(ts) != ""
  {
    if ts != [] {
      assert ts[0] in ts && AgeText(ts)[0] == ts[0].digits[0];
    }
  }

  lemma {:induction false} ReadsTokens(ts: seq<AgeToken>)
    requires AreTokens(ts)
    ensures IsAge(AgeText(ts)) && AgeMillis(AgeText(ts)) == AgeTotal(ts)
  {
    if ts != [] {
      assert ts[0] in ts;
      var digits, unit, rest := ts[0].digits, ts[0].unit, AgeText(ts[1..]);
      ReadsTokens(ts[1..]);
      AgeTextStarts(ts[1..]);
      TokenIs(digits, unit, rest);
      AgeFirst(AgeText(ts));
    }
  }

  lemma TokenIs(digits: string, unit: string, rest: string)
    requires digits != "" && All(digits, IsDigit) && unit in UNITS && (rest != "" ==> IsDigit(rest[0]))
    ensures TokenLength(digits + (unit + rest)) == |digits| + |unit|
    ensures (digits + (unit + rest))[|digits| + |unit|..] == rest
    ensures TokenMillis(digits + (unit + rest)) == Numeral(digits) * Worth(unit)
  {
    UnitReads(unit, rest);
    SpanExact(digits, unit + rest, IsDigit);
    Apart(digits, unit, rest);
    TokenAt(digits + (unit + rest), digits, Worth(unit));
  }

  lemma TokenAt(s: string, digits: string, worth: nat)
    requires All(digits, IsDigit) && digits <= s && Span(s, IsDigit) == |digits|
    requires UnitMillis(s[|digits|..]) == worth
    ensures TokenMillis(s) == Numeral(digits) * worth
  {
    assert s[..|digits|] == digits;
  }

  lemma Apart(a: string, b: string, c: string)
    ensures (a + (b + c))[|a|..] == b + c && (a + (b + c))[..|a|] == a && (a + (b + c))[|a| + |b|..] == c
  {
  }

  lemma {:induction false} TokensOf(s: string) returns (ts: seq<AgeToken>)
    requires IsAge(s)
    ensures AreTokens(ts) && AgeText(ts) == s && (s != "" ==> ts != [])
    decreases |s|
  {
    if s == "" {
      return [];
    }
    var n := Span(s, IsDigit);
    var unit := s[n..][..UnitLength(s[n..])];
    assert unit in UNITS by {
      assert s[n..] != "";
      assert UnitLength(s[n..]) == 2 ==> unit == "ms";
      assert UnitLength(s[n..]) == 1 ==> unit == [s[n..][0]] && IsUnit(unit[0]);
    }
    var more := TokensOf(s[TokenLength(s)..]);
    ts := [AgeToken(s[..n], unit)] + more;
    assert ts[1..] == more;
    assert s == s[..n] + (unit + s[TokenLength(s)..]);
  }

  /** What is read as an age, and as which: one or more tokens of digits and a unit, and what they are worth in all. */
  lemma AgesExactly(value: string, millis: nat)
    ensures ParsedAge(value) == Some(millis) <==>
              exists ts: seq<AgeToken> ::
                ts != [] && AreTokens(ts) && Trim(value) == AgeText(ts) && AgeTotal(ts) == millis
  {
    AcceptsExactlyAges(value);
    if ParsedAge(value) == Some(millis) {
      var ts := TokensOf(Trim(value));
      ReadsTokens(ts);
    }
    forall ts: seq<AgeToken> | ts != [] && AreTokens(ts) && Trim(value) == AgeText(ts)
      ensures ParsedAge(value) == Some(AgeTotal(ts))
    {
      ReadsTokens(ts);
      AgeTextStarts(ts);
    }
  }

  // ---------------------------------------------------------------- printing

  function HoursMinutes(hours: nat, minutes: nat): string {
    if minutes > 0 then Decimal(hours) + "h" + (Decimal(minutes) + "m") else Decimal(hours) + "h"
  }

  function YearsDays(years: nat, days: nat): string {
    if days > 0 then Decimal(years) + "y" + (Decimal(days) + "d") else Decimal(years) + "y"
  }

  function Short(seconds: nat): string {
    if seconds < 60 then Decimal(seconds) + "s"
    else if seconds < 3600 then Decimal(seconds / 60) + "m"
    else if seconds < 86400 then HoursMinutes(seconds / 3600, seconds / 60 % 60)
    else if seconds / 86400 < 365 then Decimal(seconds / 86400) + "d"
    else YearsDays(seconds / 86400 / 365, seconds / 86400 % 365)
  }

  method FormatDurationShort(seconds: nat) returns (r: string)
    ensures r == Short(seconds)
  {
    if seconds < 60 {
      return Decimal(seconds) + "s";
    }
    var minutes := seconds / 60;
    if minutes < 60 {
      return Decimal(minutes) + "m";
    }
    var hours := minutes / 60;
    minutes := minutes % 60;
    if hours < 24 {
      return HoursMinutes(hours, minutes);
    }
    var days := hours / 24;
    if days < 365 {
      return Decimal(days) + "d";
    }
    return YearsDays(days / 365, days % 365);
  }

  /** A day and more is printed in years and the days behind them, or in days; what is smaller is left out. */
  lemma DaysSpelled(all: nat, years: nat, days: nat, rest: nat)
    requires all == 31536000 * years + 86400 * days + rest && days < 365 && rest < 86400 && years + days > 0
    ensures Short(all) ==
              if years > 0 then Decimal(years) + "y" + (if days > 0 then Decimal(days) + "d" else "")
              else Decimal(days) + "d"
  {
    WholeDaysIn(years, days, rest);
    LongForm(all, years, days);
  }

  /** Less is printed in hours and the minutes behind them, in minutes, or in seconds. */
  lemma HoursSpelled(all: nat, hours: nat, minutes: nat, seconds: nat)
    requires all == 3600 * hours + 60 * minutes + seconds && hours < 24 && minutes < 60 && seconds < 60
    ensures Short(all) ==
              if hours > 0 then Decimal(hours) + "h" + (if minutes > 0 then Decimal(minutes) + "m" else "")
              else if minutes > 0 then Decimal(minutes) + "m"
              else Decimal(seconds) + "s"
  {
    WithinDay(hours, minutes, seconds);
    DayForm(all, hours, minutes, seconds);
  }

  lemma LongForm(all: nat, years: nat, days: nat)
    requires all >= 86400 && days < 365
    requires all / 86400 == 365 * years + days && all / 86400 / 365 == years && all / 86400 % 365 == days
    ensures Short(all) ==
              if years > 0 then Decimal(years) + "y" + (if days > 0 then Decimal(days) + "d" else "")
              else Decimal(days) + "d"
  {
    assert Decimal(years) + "y" + "" == Decimal(years) + "y";
    Assoc(Decimal(years), "y", Decimal(days) + "d");
  }

  lemma DayForm(all: nat, hours: nat, minutes: nat, seconds: nat)
    requires all < 86400 && all == 3600 * hours + 60 * minutes + seconds && minutes < 60 && seconds < 60
    requires all / 3600 == hours && all / 60 == 60 * hours + minutes && all / 60 % 60 == minutes
    ensures Short(all) ==
              if hours > 0 then Decimal(hours) + "h" + (if minutes > 0 then Decimal(minutes) + "m" else "")
              else if minutes > 0 then Decimal(minutes) + "m"
              else Decimal(seconds) + "s"
  {
    assert Decimal(hours) + "h" + "" == Decimal(hours) + "h";
  }

  lemma WholeDaysIn(years: nat, days: nat, rest: nat)
    requires days < 365 && rest < 86400
    ensures var all := 31536000 * years + 86400 * days + rest;
            all / 86400 == 365 * years + days && all / 86400 / 365 == years && all / 86400 % 365 == days
  {
    assert (31536000 * years + 86400 * days + rest) / 86400 == 365 * years + days;
  }

  lemma WithinDay(hours: nat, minutes: nat, seconds: nat)
    requires hours < 24 && minutes < 60 && seconds < 60
    ensures var all := 3600 * hours + 60 * minutes + seconds;
            && all < 86400 && all / 3600 == hours
            && all / 60 == 60 * hours + minutes && all / 60 % 60 == minutes
  {
    assert (3600 * hours + 60 * minutes + seconds) / 60 == 60 * hours + minutes;
  }

  /** What is left of a duration once printed. */
  function Rounded(seconds: nat): nat {
    if seconds < 60 then seconds else if seconds < 86400 then seconds - seconds % 60 else seconds - seconds % 86400
  }

  /** The text is an age as it stands, of so many milliseconds. */
  ghost predicate ReadsAs(s: string, millis: nat) {
    s != "" && Trim(s) == s && IsAge(s) && AgeMillis(s) == millis
  }

  lemma TokenReads(n: nat, unit: char, rest: string)
    requires IsUnit(unit) && (unit == 'm' ==> rest == "")
    ensures TokenLength(Decimal(n) + ([unit] + rest)) == |Decimal(n)| + 1
    ensures TokenMillis(Decimal(n) + ([unit] + rest)) == n * MillisOf(unit)
    ensures (Decimal(n) + ([unit] + rest))[|Decimal(n)| + 1..] == rest
  {
    var digits, tail := Decimal(n), [unit] + rest;
    SpanExact(digits, tail, IsDigit);
    DecimalReads(n);
    assert (digits + tail)[|digits|..] == tail && (digits + tail)[..|digits|] == digits;
    assert (digits + tail)[|digits| + 1..] == rest;
  }

  lemma AgeFirst(s: string)
    requires TokenLength(s) > 0 && IsAge(s[TokenLength(s)..])
    ensures IsAge(s) && AgeMillis(s) == TokenMillis(s) + AgeMillis(s[TokenLength(s)..])
  {
  }

  lemma OneToken(n: nat, unit: char)
    requires IsUnit(unit)
    ensures ReadsAs(Decimal(n) + [unit], n * MillisOf(unit))
  {
    assert [unit] + "" == [unit];
    TokenReads(n, unit, "");
    AgeFirst(Decimal(n) + [unit]);
    NoSpaces(Decimal(n), unit);
  }

  lemma TwoTokens(n: nat, unit: char, k: nat, unit2: char)
    requires IsUnit(unit) && unit != 'm' && IsUnit(unit2)
    ensures ReadsAs(Decimal(n) + [unit] + (Decimal(k) + [unit2]), n * MillisOf(unit) + k * MillisOf(unit2))
  {
    var second := Decimal(k) + [unit2];
    OneToken(k, unit2);
    Assoc(Decimal(n), [unit], second);
    TokenReads(n, unit, second);
    AgeFirst(Decimal(n) + ([unit] + second));
    Assoc(Decimal(n) + [unit], Decimal(k), [unit2]);
    NoSpaces(Decimal(n) + [unit] + Decimal(k), unit2);
  }

  /** Text that begins with a digit and ends with a unit has nothing to trim. */
  lemma NoSpaces(front: string, unit: char)
    requires front != "" && IsDigit(front[0]) && IsUnit(unit)
    ensures Trim(front + [unit]) == front + [unit]
  {
    assert !IsSpace(front[0]) && !IsSpace(unit);
  }

  /** What is printed reads back as what was printed of it. */
  lemma PrintThenParse(seconds: nat)
    ensures ParsedAge(Short(seconds)) == Some(1000 * Rounded(seconds))
  {
    ShortReads(seconds);
    AcceptsExactlyAges(Short(seconds));
  }

  lemma ShortReads(seconds: nat)
    ensures ReadsAs(Short(seconds), 1000 * Rounded(seconds))
  {
    if seconds < 60 {
      OneToken(seconds, 's');
      ShortMillis(seconds);
    } else if seconds < 3600 {
      OneToken(seconds / 60, 'm');
      ShortMillis(seconds / 60);
    } else if seconds < 86400 {
      HoursMinutesRead(seconds / 3600, seconds / 60 % 60);
      WholeMinutes(seconds);
    } else {
      DaysRead(seconds / 86400);
      WholeDays(seconds);
    }
  }

  lemma DaysRead(days: nat)
    requires days > 0
    ensures ReadsAs(if days < 365 then Decimal(days) + "d" else YearsDays(days / 365, days % 365), 86400000 * days)
  {
    if days < 365 {
      OneToken(days, 'd');
      YearsDaysMillis(0, days);
    } else {
      YearsDaysRead(days / 365, days % 365);
      assert 365 * (days / 365) + days % 365 == days;
    }
  }

  lemma WholeDays(seconds: nat)
    ensures 86400 * (seconds / 86400) == seconds - seconds % 86400
  {
  }

  lemma WholeMinutes(seconds: nat)
    ensures 3600 * (seconds / 3600) + 60 * (seconds / 60 % 60) == seconds - seconds % 60
  {
    assert seconds / 3600 == seconds / 60 / 60;
  }

  lemma HoursMinutesRead(hours: nat, minutes: nat)
    ensures ReadsAs(HoursMinutes(hours, minutes), 3600000 * hours + 60000 * minutes)
  {
    HoursMinutesMillis(hours, minutes);
    if minutes > 0 {
      TwoTokens(hours, 'h', minutes, 'm');
    } else {
      OneToken(hours, 'h');
    }
  }

  lemma HoursMinutesMillis(hours: nat, minutes: nat)
    ensures hours * MillisOf('h') + minutes * MillisOf('m') == 3600000 * hours + 60000 * minutes
    ensures hours * MillisOf('h') == 3600000 * hours
  {
  }

  lemma YearsDaysMillis(years: nat, days: nat)
    ensures years * MillisOf('y') + days * MillisOf('d') == 86400000 * (365 * years + days)
    ensures years * MillisOf('y') == 86400000 * (365 * years)
    ensures days * MillisOf('d') == 86400000 * days
  {
  }

  lemma ShortMillis(n: nat)
    ensures n * MillisOf('s') == 1000 * n && n * MillisOf('m') == 60000 * n
  {
  }

  lemma YearsDaysRead(years: nat, days: nat)
    ensures ReadsAs(YearsDays(years, days), 86400000 * (365 * years + days))
  {
    YearsDaysMillis(years, days);
    if days > 0 {
      TwoTokens(years, 'y', days, 'd');
    } else {
      OneToken(years, 'y');
    }
  }

  /** The milliseconds a printed duration reads as. */
  function ShownMillis(seconds: nat): nat {
    match ParsedAge(Short(seconds))
    case Some(millis) => millis
    case None => 0
  }

  /** How much is lost, and that a longer time never reads as a shorter one. */
  lemma PrintingLoses(seconds: nat, later: nat)
    requires seconds <= later
    ensures ParsedAge(Short(seconds)).Some?
    ensures ShownMillis(seconds) <= 1000 * seconds
    ensures seconds < 60 ==> ShownMillis(seconds) == 1000 * seconds
    ensures seconds < 86400 ==> 1000 * seconds < ShownMillis(seconds) + 60000
    ensures 1000 * seconds < ShownMillis(seconds) + 86400000
    ensures ShownMillis(seconds) <= ShownMillis(later)
  {
    PrintThenParse(seconds);
    PrintThenParse(later);
    RoundingIsMonotone(seconds, later);
  }

  lemma RoundingIsMonotone(seconds: nat, later: nat)
    requires seconds <= later
    ensures Rounded(seconds) <= Rounded(later)
    ensures Rounded(seconds) <= seconds < Rounded(seconds) + 86400
  {
    assert seconds / 60 <= later / 60 && seconds / 86400 <= later / 86400;
    assert seconds - seconds % 60 == 60 * (seconds / 60) && later - later % 60 == 60 * (later / 60);
    assert seconds - seconds % 86400 == 86400 * (seconds / 86400) && later - later % 86400 == 86400 * (later / 86400);
  }

  // ---------------------------------------------------------------- timestamps

  type Clock = string -> Option<int>   // Date.parse, in milliseconds

  /** Whole seconds, and none for the future. */
  function Elapsed(now: int, at: int): nat {
    if now < at then 0 else (now - at) / 1000
  }

  /** formatAge: nothing for a missing or bad timestamp, 0s for one in the future. */
  function FormatAge(parseDate: Clock, timestamp: Option<string>, now: int): string {
    if timestamp.None? || timestamp.value == "" then ""
    else
      match parseDate(timestamp.value)
      case None => ""
      case Some(at) => Short(Elapsed(now, at))
  }

  /**
   A cell's age reads back as the time that passed, to the minute within a day and to the day beyond; the future as 0.
   */
  lemma CellReadsAsAge(parseDate: Clock, timestamp: string, now: int, at: int)
    requires timestamp != "" && parseDate(timestamp) == Some(at)
    ensures ParsedAge(FormatAge(parseDate, Some(timestamp), now)).Some?
    ensures var shown := ParsedAge(FormatAge(parseDate, Some(timestamp), now)).value;
            && (at <= now ==> shown <= now - at < shown + if now - at < 86400000 then 60000 else 86400000)
            && (now <= at ==> shown == 0)
  {
    var seconds := Elapsed(now, at);
    assert FormatAge(parseDate, Some(timestamp), now) == Short(seconds);
    PrintThenParse(seconds);
    if at <= now {
      WithinUnit(now - at);
    }
  }

  /** Nothing is shown for a timestamp that is missing, empty or no date; the age in whole seconds for any other. */
  lemma ShowsAgeExactly(parseDate: Clock, timestamp: Option<string>, now: int)
    ensures timestamp == None || timestamp == Some("") ==> FormatAge(parseDate, timestamp, now) == ""
    ensures timestamp.Some? && timestamp.value != "" ==>
              match parseDate(timestamp.value)
              case None => FormatAge(parseDate, timestamp, now) == ""
              case Some(at) => FormatAge(parseDate, timestamp, now) == Short(if at < now then (now - at) / 1000 else 0)
  {
  }

  lemma WithinUnit(elapsed: nat)
    ensures var shown := 1000 * Rounded(elapsed / 1000);
            shown <= elapsed < shown + if elapsed < 86400000 then 60000 else 86400000
    ensures elapsed == 0 ==> Rounded(elapsed / 1000) == 0
  {
    RoundingIsMonotone(elapsed / 1000, elapsed / 1000);
  }
}
