/**
 What the tokens of a JSON log line (web/src/utils/logJson.ts:34-63 and 112-165) say, read off their texts and order
 alone: which of them are keys, which are level values, and of what severity.
 */
module LogLevels {
  import opened Wrappers

  import opened JsText
  import opened JsonGrammar
  import opened JsonLine

  predicate Blank(t: Token) {
    t.kind == PunctTok && t.text != "" && IsWs(t.text[0])
  }

  const COLON := Token(PunctTok, ":", None)

  /** The last token before i that is not whitespace, -1 without one. */
  function Before(ts: seq<Token>, i: nat): (k: int)
    requires i <= |ts|
    ensures -1 <= k < i && (k >= 0 ==> !Blank(ts[k]))
  {
    if i == 0 then -1 else if !Blank(ts[i - 1]) then i - 1 else Before(ts, i - 1)
  }

  /** The first token from i on that is not whitespace, the length without one. */
  function From(ts: seq<Token>, i: nat): (k: nat)
    requires i <= |ts|
    ensures i <= k <= |ts| && (k < |ts| ==> !Blank(ts[k]))
    decreases |ts| - i
  {
    if i == |ts| then i else if !Blank(ts[i]) then i else From(ts, i + 1)
  }

  /** The key is one of the five whose value is the record's level. */
  predicate NamesLevel(b: Browser, key: string) {
    |key| >= 2 &&
    var name := b.lower(key[1..|key| - 1]);
    name == "level" || name == "severity" || name == "lvl" || name == "loglevel" || name == "log.level"
  }

  /** The place behind a level key and its colon; `above` says it of the place where the tokens begin. */
  predicate LevelPlace(b: Browser, ts: seq<Token>, i: nat, above: bool)
    requires i <= |ts|
  {
    var k := Before(ts, i);
    if k < 0 then above
    else
      && ts[k] == COLON
      && var j := Before(ts, k);
         j >= 0 && ts[j].kind == KeyTok && NamesLevel(b, ts[j].text)
  }

  predicate BeforeColon(ts: seq<Token>, i: nat)
    requires i < |ts|
  {
    From(ts, i + 1) < |ts| && ts[From(ts, i + 1)] == COLON
  }

  /** A token is a level token of exactly the severity that holds, and one of its plain kind if none does. */
  predicate Marked(t: Token, plain: Kind, error: bool, warn: bool, info: bool, debug: bool) {
    && (t.kind == LevelTok && t.severity == Some(SevError) <==> error)
    && (t.kind == LevelTok && t.severity == Some(SevWarn) <==> warn)
    && (t.kind == LevelTok && t.severity == Some(SevInfo) <==> info)
    && (t.kind == LevelTok && t.severity == Some(SevDebug) <==> debug)
    && (!error && !warn && !info && !debug ==> t == Token(plain, t.text, None))
  }

  /** A string in the place of a level is one by how it begins, whatever its case. */
  predicate StringMarked(b: Browser, t: Token, level: bool) {
    var s := if |t.text| >= 2 then b.lower(t.text[1..|t.text| - 1]) else "";
    Marked(t, StringTok,
           level && ("err" <= s || "fatal" <= s || "crit" <= s || "panic" <= s || "alert" <= s || "emerg" <= s),
           level && "warn" <= s,
           level && ("info" <= s || "notice" <= s),
           level && ("debug" <= s || "trace" <= s))
  }

  /** A number in the place of a level is one by its size. */
  predicate NumberMarked(b: Browser, t: Token, level: bool) {
    var n := b.number(t.text);
    Marked(t, NumberTok,
           level && n.Some? && 50.0 <= n.value,
           level && n.Some? && 40.0 <= n.value < 50.0,
           level && n.Some? && 30.0 <= n.value < 40.0,
           level && n.Some? && 10.0 <= n.value < 30.0)
  }

  /** A token, told from its text, from whether it is in the place of a level, and from whether a colon follows. */
  predicate Right(b: Browser, t: Token, level: bool, key: bool) {
    t.text != "" &&
    if t.text[0] == '"' then if key then t == Token(KeyTok, t.text, None) else StringMarked(b, t, level)
    else if t.text[0] == '-' || IsDigit(t.text[0]) then NumberMarked(b, t, level)
    else if t.text[0] == 't' || t.text[0] == 'f' || t.text[0] == 'n' then t == Token(KeywordTok, t.text, None)
    else t == Token(PunctTok, t.text, None)
  }

  predicate AllRight(b: Browser, ts: seq<Token>, above: bool) {
    forall i | 0 <= i < |ts| :: RightAt(b, ts, i, above)
  }

  predicate RightAt(b: Browser, ts: seq<Token>, i: nat, above: bool)
    requires i < |ts|
  {
    Right(b, ts[i], LevelPlace(b, ts, i, above), BeforeColon(ts, i))
  }

  // ---------------------------------------------------------------- what one sequence behind another sees

  lemma {:induction false} BeforeAppend(a: seq<Token>, c: seq<Token>, i: nat)
    requires i <= |a| + |c|
    ensures Before(a + c, i)
         == if i <= |a| then Before(a, i)
            else if Before(c, i - |a|) >= 0 then |a| + Before(c, i - |a|) else Before(a, |a|)
  {
    if i > 0 {
      BeforeAppend(a, c, i - 1);
    }
  }

  lemma {:induction false} FromAppend(a: seq<Token>, c: seq<Token>, i: nat)
    requires i <= |a| + |c|
    ensures From(a + c, i)
         == if i >= |a| then |a| + From(c, i - |a|)
            else if From(a, i) < |a| then From(a, i) else |a| + From(c, 0)
    decreases |a| + |c| - i
  {
    if i < |a| + |c| {
      FromAppend(a, c, i + 1);
    }
  }

  /** Tokens that begin with something other than a colon. */
  predicate NoColonFirst(ts: seq<Token>) {
    From(ts, 0) < |ts| ==> ts[From(ts, 0)] != COLON
  }

  lemma PlaceAppend(b: Browser, a: seq<Token>, c: seq<Token>, i: nat, above: bool)
    requires i <= |a| + |c| && NoColonFirst(c)
    ensures LevelPlace(b, a + c, i, above)
         == if i <= |a| then LevelPlace(b, a, i, above)
            else LevelPlace(b, c, i - |a|, LevelPlace(b, a, |a|, above))
  {
    BeforeAppend(a, c, i);
    var k := Before(a + c, i);
    if k >= 0 {
      BeforeAppend(a, c, k);
    }
    if i > |a| && Before(c, i - |a|) >= 0 && c[Before(c, i - |a|)] == COLON {
      NotFirst(c, Before(c, i - |a|));
    }
  }

  /** What is not the first token that counts has one before it. */
  lemma {:induction false} NotFirst(ts: seq<Token>, k: nat)
    requires k < |ts| && !Blank(ts[k]) && NoColonFirst(ts) && ts[k] == COLON
    ensures Before(ts, k) >= 0
  {
    var f := From(ts, 0);
    FirstIsFirst(ts, 0, k);
    Reaches(ts, f, k);
  }

  lemma {:induction false} FirstIsFirst(ts: seq<Token>, i: nat, k: nat)
    requires i <= k < |ts| && !Blank(ts[k])
    ensures From(ts, i) <= k
    decreases k - i
  {
    if i < k {
      FirstIsFirst(ts, i + 1, k);
    }
  }

  lemma {:induction false} Reaches(ts: seq<Token>, f: nat, k: nat)
    requires f < k <= |ts| && !Blank(ts[f])
    ensures Before(ts, k) >= f
  {
    if f + 1 < k {
      Reaches(ts, f, k - 1);
    }
  }

  lemma FrontBeforeColon(a: seq<Token>, c: seq<Token>, i: nat)
    requires i < |a| && NoColonFirst(c)
    ensures BeforeColon(a + c, i) == BeforeColon(a, i)
  {
    FromAppend(a, c, i + 1);
  }

  lemma BackBeforeColon(a: seq<Token>, c: seq<Token>, i: nat)
    requires i < |c|
    ensures BeforeColon(a + c, |a| + i) == BeforeColon(c, i)
  {
    FromAppend(a, c, |a| + i + 1);
  }

  lemma FrontRight(b: Browser, a: seq<Token>, c: seq<Token>, i: nat, above: bool)
    requires i < |a| && RightAt(b, a, i, above) && NoColonFirst(c)
    ensures RightAt(b, a + c, i, above)
  {
    PlaceAppend(b, a, c, i, above);
    FrontBeforeColon(a, c, i);
    assert (a + c)[i] == a[i];
  }

  lemma BackRight(b: Browser, a: seq<Token>, c: seq<Token>, i: nat, above: bool)
    requires i < |c| && RightAt(b, c, i, LevelPlace(b, a, |a|, above)) && NoColonFirst(c)
    ensures RightAt(b, a + c, |a| + i, above)
  {
    PlaceAppend(b, a, c, |a| + i, above);
    BackBeforeColon(a, c, i);
    PlaceAtStart(b, c, LevelPlace(b, a, |a|, above));
    assert (a + c)[|a| + i] == c[i];
  }

  lemma AppendRight(b: Browser, a: seq<Token>, c: seq<Token>, above: bool)
    requires AllRight(b, a, above) && NoColonFirst(c)
    requires AllRight(b, c, LevelPlace(b, a, |a|, above))
    ensures AllRight(b, a + c, above)
  {
    forall i | 0 <= i < |a + c| ensures RightAt(b, a + c, i, above) {
      if i < |a| {
        FrontRight(b, a, c, i, above);
      } else {
        BackRight(b, a, c, i - |a|, above);
      }
    }
  }

  lemma PlaceAtStart(b: Browser, ts: seq<Token>, above: bool)
    ensures LevelPlace(b, ts, 0, above) == above
  {
  }

  // ---------------------------------------------------------------- the tokens of a tree

  lemma WsRight(b: Browser, ws: string, above: bool)
    requires All(ws, IsWs)
    ensures AllRight(b, WsTokens(ws), above) && NoColonFirst(WsTokens(ws))
    ensures Before(WsTokens(ws), |WsTokens(ws)|) == -1
  {
    if ws != "" {
      assert WsTokens(ws) == [Token(PunctTok, ws, None)] && IsWs(ws[0]);
    }
  }

  /** Whitespace behind something changes nothing. */
  lemma WsBehind(b: Browser, a: seq<Token>, ws: string, above: bool)
    requires AllRight(b, a, above) && All(ws, IsWs)
    ensures var ts := a + WsTokens(ws);
            AllRight(b, ts, above) && LevelPlace(b, ts, |ts|, above) == LevelPlace(b, a, |a|, above)
  {
    WsRight(b, ws, LevelPlace(b, a, |a|, above));
    AppendRight(b, a, WsTokens(ws), above);
    PlaceAppend(b, a, WsTokens(ws), |a| + |WsTokens(ws)|, above);
    if ws == "" {
      assert a + WsTokens(ws) == a;
    }
  }

  predicate Bracket(text: string) {
    text == "{" || text == "}" || text == "[" || text == "]" || text == ","
  }

  lemma BracketRight(b: Browser, text: string, above: bool)
    requires Bracket(text)
    ensures var ts := [PunctToken(text)];
            && AllRight(b, ts, above) && NoColonFirst(ts) && !LevelPlace(b, ts, 1, above)
  {
    var ts := [PunctToken(text)];
    assert !Blank(ts[0]) && From(ts, 0) == 0 && Before(ts, 1) == 0;
  }

  /** A bracket or a comma behind something ends every level place. */
  lemma BracketBehind(b: Browser, a: seq<Token>, text: string, above: bool)
    requires AllRight(b, a, above) && Bracket(text)
    ensures var ts := a + [PunctToken(text)];
            AllRight(b, ts, above) && !LevelPlace(b, ts, |ts|, above)
  {
    var c := [PunctToken(text)];
    BracketRight(b, text, LevelPlace(b, a, |a|, above));
    AppendRight(b, a, c, above);
    PlaceAppend(b, a, c, |a| + 1, above);
  }

  /** key ws ":" in a place that is not a level's. */
  lemma KeyRight(b: Browser, key: string, ws: string)
    requires IsLiteral(key) && All(ws, IsWs)
    ensures var ts := [Token(KeyTok, key, None)] + WsTokens(ws) + [PunctToken(":")];
            && AllRight(b, ts, false) && NoColonFirst(ts)
            && (LevelPlace(b, ts, |ts|, false) <==> IsLevelKey(b, key))
  {
    var first := Token(KeyTok, key, None);
    assert !Blank(first) && !Blank(COLON) && first != COLON;
    assert Right(b, first, false, true) && Right(b, COLON, false, false);
    if ws == "" {
      TwoRight(b, first);
      assert [first] + WsTokens(ws) + [COLON] == [first, COLON];
    } else {
      ThreeRight(b, first, Token(PunctTok, ws, None));
      assert [first] + WsTokens(ws) + [COLON] == [first, Token(PunctTok, ws, None), COLON];
    }
  }

  lemma TwoRight(b: Browser, first: Token)
    requires first.kind == KeyTok && Right(b, first, false, true)
    ensures var ts := [first, COLON];
            && AllRight(b, ts, false) && NoColonFirst(ts)
            && (LevelPlace(b, ts, 2, false) <==> NamesLevel(b, first.text))
  {
    var ts := [first, COLON];
    assert Before(ts, 2) == 1 && Before(ts, 1) == 0 && Before(ts, 0) == -1;
    assert From(ts, 0) == 0 && From(ts, 1) == 1 && From(ts, 2) == 2;
  }

  lemma ThreeRight(b: Browser, first: Token, gap: Token)
    requires first.kind == KeyTok && Right(b, first, false, true)
    requires Blank(gap) && Right(b, gap, false, true)
    ensures var ts := [first, gap, COLON];
            && AllRight(b, ts, false) && NoColonFirst(ts)
            && (LevelPlace(b, ts, 3, false) <==> NamesLevel(b, first.text))
  {
    var ts := [first, gap, COLON];
    assert Before(ts, 0) == -1;
    assert Before(ts, 1) == 0;
    assert Before(ts, 2) == 0;
    assert Before(ts, 3) == 2;
    assert From(ts, 3) == 3;
    assert From(ts, 2) == 2;
    assert From(ts, 1) == 2;
    assert From(ts, 0) == 0;
  }

  /** The tokens of a value begin with no colon and no whitespace. */
  lemma ValueFirst(b: Browser, t: Json, isLevel: bool)
    requires WellFormed(t)
    ensures var ts := Tokens(b, t, isLevel); ts != [] && !Blank(ts[0]) && NoColonFirst(ts)
  {
    ValueStart(t);
    var ts := Tokens(b, t, isLevel);
    assert !Blank(ts[0]) && ts[0] != COLON;
  }

  lemma {:induction false} ValueRight(b: Browser, t: Json, isLevel: bool)
    requires WellFormed(t)
    ensures AllRight(b, Tokens(b, t, isLevel), isLevel)
    decreases t
  {
    match t
    case Str(raw) => StringRight(b, raw, isLevel);
    case Num(raw) => NumberRight(b, raw, isLevel);
    case Word(w) => ScalarRight(b, Token(KeywordTok, w, None), isLevel);
    case EmptyObject(ws) => PairRight(b, "{", ws, "}", isLevel);
    case Object(members) =>
      BracketRight(b, "{", isLevel);
      MembersRight(b, members);
      AppendRight(b, [PunctToken("{")], MembersTokens(b, members), isLevel);
    case EmptyArray(ws) => PairRight(b, "[", ws, "]", isLevel);
    case Array(items) =>
      BracketRight(b, "[", isLevel);
      ItemsRight(b, items);
      AppendRight(b, [PunctToken("[")], ItemsTokens(b, items), isLevel);
  }

  /** The words for one severity begin with other letters than those for another. */
  lemma WordsDiffer(s: string)
    ensures "err" <= s || "fatal" <= s || "crit" <= s || "panic" <= s || "alert" <= s || "emerg" <= s ==>
              s[0] in "efcpa"
    ensures "warn" <= s ==> s[0] in "w"
    ensures "info" <= s || "notice" <= s ==> s[0] in "in"
    ensures "debug" <= s || "trace" <= s ==> s[0] in "dt"
  {
  }

  lemma StringRight(b: Browser, raw: string, isLevel: bool)
    requires IsLiteral(raw)
    ensures AllRight(b, Tokens(b, Str(raw), isLevel), isLevel)
  {
    var t := Leveled(StringTok, raw, if isLevel then SeverityOfName(b, Inner(raw)) else None);
    WordsDiffer(b.lower(raw[1..|raw| - 1]));
    assert StringMarked(b, t, isLevel);
    ScalarRight(b, t, isLevel);
  }

  lemma NumberRight(b: Browser, raw: string, isLevel: bool)
    requires IsNumber(raw)
    ensures AllRight(b, Tokens(b, Num(raw), isLevel), isLevel)
  {
    var t := Leveled(NumberTok, raw, if isLevel then SeverityOfNumber(b, raw) else None);
    NumberStart(raw);
    NumberIsMarked(b, raw, isLevel);
    StartsAsNumber(b, t, isLevel);
    ScalarRight(b, t, isLevel);
  }

  lemma NumberIsMarked(b: Browser, raw: string, isLevel: bool)
    ensures NumberMarked(b, Leveled(NumberTok, raw, if isLevel then SeverityOfNumber(b, raw) else None), isLevel)
  {
  }

  lemma StartsAsNumber(b: Browser, t: Token, level: bool)
    requires t.text != "" && (t.text[0] == '-' || IsDigit(t.text[0])) && NumberMarked(b, t, level)
    ensures Right(b, t, level, false)
  {
  }

  lemma ScalarRight(b: Browser, t: Token, above: bool)
    requires Right(b, t, above, false)
    ensures AllRight(b, [t], above)
  {
    assert Before([t], 0) == -1 && From([t], 1) == 1;
  }

  lemma PairRight(b: Browser, open: string, ws: string, close: string, above: bool)
    requires Bracket(open) && Bracket(close) && All(ws, IsWs)
    ensures AllRight(b, [PunctToken(open)] + WsTokens(ws) + [PunctToken(close)], above)
  {
    BracketRight(b, open, above);
    WsBehind(b, [PunctToken(open)], ws, above);
    BracketBehind(b, [PunctToken(open)] + WsTokens(ws), close, above);
  }

  /** A member, in a place that is not a level's, is right whatever comes before its closing comma or brace. */
  lemma {:induction false} MemberRight(b: Browser, m: Member)
    requires WellFormedMember(m)
    ensures AllRight(b, MemberTokens(b, m), false) && NoColonFirst(MemberTokens(b, m))
    decreases m
  {
    var key := [Token(KeyTok, m.key, None)] + WsTokens(m.ws1) + [PunctToken(":")];
    var value := Tokens(b, m.value, IsLevelKey(b, m.key));
    WsRight(b, m.ws0, false);
    KeyRight(b, m.key, m.ws1);
    AppendRight(b, WsTokens(m.ws0), key, false);
    var t1 := WsTokens(m.ws0) + key;
    PlaceAppend(b, WsTokens(m.ws0), key, |t1|, false);
    WsBehind(b, t1, m.ws2, false);
    var t2 := t1 + WsTokens(m.ws2);
    ValueRight(b, m.value, IsLevelKey(b, m.key));
    ValueFirst(b, m.value, IsLevelKey(b, m.key));
    AppendRight(b, t2, value, false);
    WsBehind(b, t2 + value, m.ws3, false);
    assert MemberTokens(b, m) == t2 + value + WsTokens(m.ws3) by {
      KeyGroups(WsTokens(m.ws0), [Token(KeyTok, m.key, None)], WsTokens(m.ws1), [PunctToken(":")]);
    }
    FromAppend(WsTokens(m.ws0), key, 0);
    FirstOfMore(t1, WsTokens(m.ws2) + value + WsTokens(m.ws3));
    Regroup(t1, WsTokens(m.ws2), value, WsTokens(m.ws3));
  }

  lemma KeyGroups(a: seq<Token>, c: seq<Token>, d: seq<Token>, e: seq<Token>)
    ensures a + c + d + e == a + (c + d + e)
  {
  }

  lemma Regroup(a: seq<Token>, c: seq<Token>, d: seq<Token>, e: seq<Token>)
    ensures a + (c + d + e) == a + c + d + e
  {
  }

  lemma FirstOfMore(a: seq<Token>, c: seq<Token>)
    requires From(a, 0) < |a| && NoColonFirst(a)
    ensures NoColonFirst(a + c)
  {
    FromAppend(a, c, 0);
  }

  lemma {:induction false} MembersRight(b: Browser, ms: Members)
    requires WellFormedMembers(ms)
    ensures AllRight(b, MembersTokens(b, ms), false) && NoColonFirst(MembersTokens(b, ms))
    decreases ms
  {
    var member := MemberTokens(b, ms.member);
    MemberRight(b, ms.member);
    if ms.LastMember? {
      BracketBehind(b, member, "}", false);
    } else {
      BracketBehind(b, member, ",", false);
      MembersRight(b, ms.rest);
      AppendRight(b, member + [PunctToken(",")], MembersTokens(b, ms.rest), false);
      Assoc(member, [PunctToken(",")], MembersTokens(b, ms.rest));
    }
    MemberHasFirst(b, ms.member);
    FirstOfMore(member, MembersTokens(b, ms)[|member|..]);
    assert MembersTokens(b, ms) == member + MembersTokens(b, ms)[|member|..];
  }

  lemma MemberHasFirst(b: Browser, m: Member)
    requires WellFormedMember(m)
    ensures From(MemberTokens(b, m), 0) < |MemberTokens(b, m)|
  {
    var k := |WsTokens(m.ws0)|;
    assert MemberTokens(b, m)[k] == Token(KeyTok, m.key, None);
    FirstIsFirst(MemberTokens(b, m), 0, k);
  }

  lemma {:induction false} ItemsRight(b: Browser, items: Items)
    requires WellFormedItems(items)
    ensures AllRight(b, ItemsTokens(b, items), false) && NoColonFirst(ItemsTokens(b, items))
    decreases items
  {
    var t0, value := WsTokens(items.ws0), Tokens(b, items.value, false);
    WsRight(b, items.ws0, false);
    ValueRight(b, items.value, false);
    ValueFirst(b, items.value, false);
    AppendRight(b, t0, value, false);
    WsBehind(b, t0 + value, items.ws1, false);
    var item := t0 + value + WsTokens(items.ws1);
    FromAppend(t0, value, 0);
    FirstOfMore(t0 + value, WsTokens(items.ws1));
    FromAppend(t0 + value, WsTokens(items.ws1), 0);
    if items.LastItem? {
      BracketBehind(b, item, "]", false);
      FirstOfMore(item, [PunctToken("]")]);
    } else {
      BracketBehind(b, item, ",", false);
      ItemsRight(b, items.rest);
      AppendRight(b, item + [PunctToken(",")], ItemsTokens(b, items.rest), false);
      FirstOfMore(item, [PunctToken(",")] + ItemsTokens(b, items.rest));
      Assoc(item, [PunctToken(",")], ItemsTokens(b, items.rest));
    }
  }

  // ---------------------------------------------------------------- main result

  /**
   Behind the stamp, every token of a line is what its text and place say: a string before a colon is a key; a string or
   a number behind a level key is a level of the severity its beginning or size says, if it says any, and otherwise
   plain; and nothing else is a level.
   */
  lemma LineIsRight(b: Browser, line: string)
    requires TokenizeOf(b, line).Some?
    ensures var n := StampEnd(line);
            var stamp := if n == 0 then [] else [Token(TextTok, line[..n], None)];
            && stamp <= TokenizeOf(b, line).value
            && AllRight(b, TokenizeOf(b, line).value[|stamp|..], false)
  {
    var n := StampEnd(line);
    var stamp := if n == 0 then [] else [Token(TextTok, line[..n], None)];
    var r := ParseObject(line[n..]);
    ObjectSound(line[n..]);
    ValueRight(b, r.tree, false);
    WsSplit(r.rest);
    WsBehind(b, Tokens(b, r.tree, false), r.rest, false);
    Assoc(stamp, Tokens(b, r.tree, false), WsTokens(r.rest));
    assert TokenizeOf(b, line).value[|stamp|..] == Tokens(b, r.tree, false) + WsTokens(r.rest);
  }
}
