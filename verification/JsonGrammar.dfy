/**
 The grammar of JSON log lines (web/src/utils/logJson.ts) as syntax trees: the text and the tokens of a tree, and a
 parser on the rest of a line that is proved to accept exactly the text of the trees.

 RFC 8259 is the standard; the scanner departs from it in what a string may contain, and takes no LF as whitespace.
 */
module JsonGrammar {
  import opened Wrappers

  import opened JsText

  // ---------------------------------------------------------------- tokens

  datatype Severity = SevError | SevWarn | SevInfo | SevDebug

  datatype Kind = TextTok | PunctTok | KeyTok | StringTok | NumberTok | KeywordTok | LevelTok

  datatype Token = Token(kind: Kind, text: string, severity: Option<Severity>)

  /** The two conversions left to the browser: String.toLowerCase, and Number (None: not finite). */
  datatype Browser = Browser(lower: string -> string, number: string -> Option<real>)

  const LEVEL_KEYS := {"level", "severity", "lvl", "loglevel", "log.level"}

  function SeverityOfName(b: Browser, value: string): Option<Severity> {
    var s := b.lower(value);
    if "err" <= s || "fatal" <= s || "crit" <= s || "panic" <= s || "alert" <= s || "emerg" <= s then Some(SevError)
    else if "warn" <= s then Some(SevWarn)
    else if "info" <= s || "notice" <= s then Some(SevInfo)
    else if "debug" <= s || "trace" <= s then Some(SevDebug)
    else None
  }

  function SeverityOfNumber(b: Browser, value: string): Option<Severity> {
    match b.number(value)
    case None => None
    case Some(n) =>
      if n >= 50.0 then Some(SevError)
      else if n >= 40.0 then Some(SevWarn)
      else if n >= 30.0 then Some(SevInfo)
      else if n >= 10.0 then Some(SevDebug)
      else None
  }

  function Texts(tokens: seq<Token>): string {
    if tokens == [] then "" else tokens[0].text + Texts(tokens[1..])
  }

  lemma {:induction false} TextsAppend(a: seq<Token>, b: seq<Token>)
    ensures Texts(a + b) == Texts(a) + Texts(b)
  {
    if a == [] {
      assert a + b == b;
    } else {
      assert (a + b)[1..] == a[1..] + b;
      TextsAppend(a[1..], b);
    }
  }

  // ---------------------------------------------------------------- the grammar (RFC 8259, sections 2 to 7)

  /** Whitespace without LF: a line never contains one. */
  predicate IsWs(c: char) {
    c == ' ' || c == '\t' || c == '\r'
  }

  datatype NumberParts = NumberParts(minus: string, whole: string, frac: string, exp: string)

  datatype Json =
    | Str(raw: string)
    | Num(raw: string)
    | Word(word: string)
    | EmptyObject(ws: string)
    | Object(members: Members)
    | EmptyArray(ws: string)
    | Array(items: Items)

  /** ws0 key ws1 ":" ws2 value ws3, then "," and more, or the closing brace. */
  datatype Member = Member(ws0: string, key: string, ws1: string, ws2: string, value: Json, ws3: string)
  datatype Members = LastMember(member: Member) | MoreMembers(member: Member, rest: Members)

  datatype Items =
    | LastItem(ws0: string, value: Json, ws1: string)
    | MoreItems(ws0: string, value: Json, ws1: string, rest: Items)

  /** A string body: a backslash takes the next character with it, anything else but a quote stands for itself. */
  predicate IsBody(s: string) {
    s == "" ||
    (if s[0] == '\\' then |s| >= 2 && IsBody(s[2..]) else s[0] != '"' && IsBody(s[1..]))
  }

  predicate IsLiteral(raw: string) {
    |raw| >= 2 && raw[0] == '"' && raw[|raw| - 1] == '"' && IsBody(raw[1..|raw| - 1])
  }

  predicate IsDigits(s: string) {
    s != "" && All(s, IsDigit)
  }

  ghost predicate IsNumber(raw: string) {
    exists n: NumberParts :: AreNumberParts(n) && NumberText(n) == raw
  }

  predicate AreNumberParts(n: NumberParts) {
    (n.minus == "" || n.minus == "-") && IsWhole(n.whole) && IsFraction(n.frac) && (n.exp == "" || IsExponent(n.exp))
  }

  function NumberText(n: NumberParts): string {
    n.minus + (n.whole + (n.frac + n.exp))
  }

  predicate IsWhole(s: string) {
    s == "0" || (IsDigits(s) && s[0] != '0')
  }

  predicate IsFraction(s: string) {
    s == "" || (s[0] == '.' && IsDigits(s[1..]))
  }

  predicate IsExponent(s: string) {
    && |s| >= 2 && (s[0] == 'e' || s[0] == 'E')
    && if s[1] == '+' || s[1] == '-' then IsDigits(s[2..]) else IsDigits(s[1..])
  }

  ghost predicate WellFormed(t: Json) {
    match t
    case Str(raw) => IsLiteral(raw)
    case Num(raw) => IsNumber(raw)
    case Word(w) => w == "true" || w == "false" || w == "null"
    case EmptyObject(ws) => All(ws, IsWs)
    case Object(members) => WellFormedMembers(members)
    case EmptyArray(ws) => All(ws, IsWs)
    case Array(items) => WellFormedItems(items)
  }

  ghost predicate WellFormedMember(m: Member) {
    && All(m.ws0, IsWs) && IsLiteral(m.key) && All(m.ws1, IsWs)
    && All(m.ws2, IsWs) && WellFormed(m.value) && All(m.ws3, IsWs)
  }

  ghost predicate WellFormedMembers(ms: Members) {
    WellFormedMember(ms.member) && (ms.MoreMembers? ==> WellFormedMembers(ms.rest))
  }

  ghost predicate WellFormedItems(items: Items) {
    && All(items.ws0, IsWs) && WellFormed(items.value) && All(items.ws1, IsWs)
    && (items.MoreItems? ==> WellFormedItems(items.rest))
  }

  /** The text a tree stands for. */
  function Text(t: Json): string {
    match t
    case Str(raw) => raw
    case Num(raw) => raw
    case Word(w) => w
    case EmptyObject(ws) => "{" + (ws + "}")
    case Object(members) => "{" + MembersText(members)
    case EmptyArray(ws) => "[" + (ws + "]")
    case Array(items) => "[" + ItemsText(items)
  }

  function MembersText(ms: Members): string
    decreases ms, 1
  {
    MemberText(ms.member, MembersClose(ms))
  }

  function MembersClose(ms: Members): string
    decreases ms, 0
  {
    match ms
    case LastMember(_) => "}"
    case MoreMembers(_, rest) => "," + MembersText(rest)
  }

  /** A member's text followed by `close`. */
  function MemberText(m: Member, close: string): string
    decreases m
  {
    m.ws0 + (m.key + (m.ws1 + (":" + (m.ws2 + (Text(m.value) + (m.ws3 + close))))))
  }

  function ItemsText(items: Items): string
    decreases items, 1
  {
    items.ws0 + (Text(items.value) + (items.ws1 + ItemsClose(items)))
  }

  function ItemsClose(items: Items): string
    decreases items, 0
  {
    match items
    case LastItem(_, _, _) => "]"
    case MoreItems(_, _, _, rest) => "," + ItemsText(rest)
  }

  // ---------------------------------------------------------------- the tokens of a tree

  function WsTokens(ws: string): seq<Token> {
    if ws == "" then [] else [Token(PunctTok, ws, None)]
  }

  function PunctToken(text: string): Token {
    Token(PunctTok, text, None)
  }

  function Leveled(plain: Kind, text: string, severity: Option<Severity>): Token {
    if severity.None? then Token(plain, text, None) else Token(LevelTok, text, severity)
  }

  function Inner(raw: string): string {
    if |raw| >= 2 then raw[1..|raw| - 1] else ""
  }

  predicate IsLevelKey(b: Browser, key: string) {
    b.lower(Inner(key)) in LEVEL_KEYS
  }

  function Tokens(b: Browser, t: Json, isLevel: bool): seq<Token> {
    match t
    case Str(raw) => [Leveled(StringTok, raw, if isLevel then SeverityOfName(b, Inner(raw)) else None)]
    case Num(raw) => [Leveled(NumberTok, raw, if isLevel then SeverityOfNumber(b, raw) else None)]
    case Word(w) => [Token(KeywordTok, w, None)]
    case EmptyObject(ws) => [PunctToken("{")] + WsTokens(ws) + [PunctToken("}")]
    case Object(members) => [PunctToken("{")] + MembersTokens(b, members)
    case EmptyArray(ws) => [PunctToken("[")] + WsTokens(ws) + [PunctToken("]")]
    case Array(items) => [PunctToken("[")] + ItemsTokens(b, items)
  }

  function MemberTokens(b: Browser, m: Member): seq<Token> {
    WsTokens(m.ws0) + [Token(KeyTok, m.key, None)] + WsTokens(m.ws1) + [PunctToken(":")]
    + WsTokens(m.ws2) + Tokens(b, m.value, IsLevelKey(b, m.key)) + WsTokens(m.ws3)
  }

  function MembersTokens(b: Browser, ms: Members): seq<Token> {
    MemberTokens(b, ms.member) +
    match ms
    case LastMember(_) => [PunctToken("}")]
    case MoreMembers(_, rest) => [PunctToken(",")] + MembersTokens(b, rest)
  }

  function ItemsTokens(b: Browser, items: Items): seq<Token> {
    WsTokens(items.ws0) + Tokens(b, items.value, false) + WsTokens(items.ws1) +
    match items
    case LastItem(_, _, _) => [PunctToken("]")]
    case MoreItems(_, _, _, rest) => [PunctToken(",")] + ItemsTokens(b, rest)
  }

  // ---------------------------------------------------------------- the parser, on the rest of the line

  datatype Parsed<+T> = NoParse | Parsed(tree: T, rest: string)

  /** Offset of the quote closing a string whose opening quote came just before s. */
  function BodyEnd(s: string): (r: Option<nat>)
    ensures r.Some? ==> r.value < |s|
  {
    if s == "" then None
    else if s[0] == '\\' then
      if |s| < 2 then None
      else match BodyEnd(s[2..]) case None => None case Some(n) => Some(n + 2)
    else if s[0] == '"' then Some(0)
    else match BodyEnd(s[1..]) case None => None case Some(n) => Some(n + 1)
  }

  function ParseLiteral(s: string): (r: Parsed<string>)
    ensures r.Parsed? ==> |r.rest| < |s|
  {
    if s == "" || s[0] != '"' then NoParse
    else
      match BodyEnd(s[1..])
      case None => NoParse
      case Some(n) => Parsed(s[..n + 2], s[n + 2..])
  }

  function WholeEnd(s: string): (n: nat)
    ensures n <= |s|
  {
    if Starts(s, '0') then 1 else Span(s, IsDigit)
  }

  function FractionEnd(s: string): (n: nat)
    ensures n <= |s|
  {
    if Starts(s, '.') && Span(s[1..], IsDigit) > 0 then 1 + Span(s[1..], IsDigit) else 0
  }

  function ExponentEnd(s: string): (n: nat)
    ensures n <= |s|
  {
    if s == "" || (s[0] != 'e' && s[0] != 'E') then 0
    else
      var sign := if |s| >= 2 && (s[1] == '+' || s[1] == '-') then 1 else 0;
      var d := Span(s[1 + sign..], IsDigit);
      if d == 0 then 0 else 1 + sign + d
  }

  function FractionExponentEnd(s: string): (n: nat)
    ensures n <= |s|
  {
    FractionEnd(s) + ExponentEnd(s[FractionEnd(s)..])
  }

  function UnsignedEnd(s: string): (n: nat)
    ensures n <= |s|
  {
    if WholeEnd(s) == 0 then 0 else WholeEnd(s) + FractionExponentEnd(s[WholeEnd(s)..])
  }

  /** Where the greedy match of the number pattern at the start of s ends; 0 when there is none. */
  function NumberEnd(s: string): (n: nat)
    ensures n <= |s|
  {
    if !Starts(s, '-') then UnsignedEnd(s)
    else if UnsignedEnd(s[1..]) == 0 then 0
    else 1 + UnsignedEnd(s[1..])
  }

  function ParseNumber(s: string): (r: Parsed<string>)
    ensures r.Parsed? ==> |r.rest| < |s|
  {
    var n := NumberEnd(s);
    if n == 0 then NoParse else Parsed(s[..n], s[n..])
  }

  function SkipWs(s: string): (r: string)
    ensures |r| <= |s|
  {
    if s != "" && IsWs(s[0]) then SkipWs(s[1..]) else s
  }

  function Ws(s: string): string {
    if s != "" && IsWs(s[0]) then [s[0]] + Ws(s[1..]) else ""
  }

  function ParseWord(s: string): (r: Parsed<string>)
    ensures r.Parsed? ==> |r.rest| < |s|
  {
    if "true" <= s then Parsed("true", s[4..])
    else if "false" <= s then Parsed("false", s[5..])
    else if "null" <= s then Parsed("null", s[4..])
    else NoParse
  }

  function ParseScalar(s: string): (r: Parsed<Json>)
    ensures r.Parsed? ==> |r.rest| < |s|
  {
    var word := ParseWord(s);
    if word.Parsed? then Parsed(Word(word.tree), word.rest)
    else
      var number := ParseNumber(s);
      if number.NoParse? then NoParse else Parsed(Num(number.tree), number.rest)
  }

  function ParseString(s: string): (r: Parsed<Json>)
    ensures r.Parsed? ==> |r.rest| < |s|
  {
    var r := ParseLiteral(s);
    if r.NoParse? then NoParse else Parsed(Str(r.tree), r.rest)
  }

  function ParseValue(s: string): (r: Parsed<Json>)
    ensures r.Parsed? ==> |r.rest| < |s|
    decreases |s|, 1
  {
    if s == "" then NoParse
    else if s[0] == '{' then ParseObject(s)
    else if s[0] == '[' then ParseArray(s)
    else if s[0] == '"' then ParseString(s)
    else ParseScalar(s)
  }

  function ParseArray(s: string): (r: Parsed<Json>)
    ensures r.Parsed? ==> |r.rest| < |s|
    decreases |s|, 0
  {
    if !Starts(s, '[') then NoParse
    else if Starts(SkipWs(s[1..]), ']') then Parsed(EmptyArray(Ws(s[1..])), SkipWs(s[1..])[1..])
    else
      var r := ParseItems(s[1..]);
      if r.NoParse? then NoParse else Parsed(Array(r.tree), r.rest)
  }

  function ParseObject(s: string): (r: Parsed<Json>)
    ensures r.Parsed? ==> |r.rest| < |s|
    decreases |s|, 0
  {
    if !Starts(s, '{') then NoParse
    else if Starts(SkipWs(s[1..]), '}') then Parsed(EmptyObject(Ws(s[1..])), SkipWs(s[1..])[1..])
    else
      var r := ParseMembers(s[1..]);
      if r.NoParse? then NoParse else Parsed(Object(r.tree), r.rest)
  }

  function ParseMember(s: string): (r: Parsed<Member>)
    ensures r.Parsed? ==> |r.rest| < |s|
    decreases |s|, 2
  {
    var key := ParseLiteral(SkipWs(s));
    if key.NoParse? || !Starts(SkipWs(key.rest), ':') then NoParse
    else
      var s1 := SkipWs(key.rest)[1..];
      var value := ParseValue(SkipWs(s1));
      if value.NoParse? then NoParse
      else Parsed(Member(Ws(s), key.tree, Ws(key.rest), Ws(s1), value.tree, Ws(value.rest)), SkipWs(value.rest))
  }

  function ParseMembers(s: string): (r: Parsed<Members>)
    ensures r.Parsed? ==> |r.rest| < |s|
    decreases |s|, 3
  {
    var m := ParseMember(s);
    if m.NoParse? then NoParse
    else if Starts(m.rest, ',') then
      var r := ParseMembers(m.rest[1..]);
      if r.NoParse? then NoParse else Parsed(MoreMembers(m.tree, r.tree), r.rest)
    else if Starts(m.rest, '}') then Parsed(LastMember(m.tree), m.rest[1..])
    else NoParse
  }

  function ParseItems(s: string): (r: Parsed<Items>)
    ensures r.Parsed? ==> |r.rest| < |s|
    decreases |s|, 3
  {
    var value := ParseValue(SkipWs(s));
    if value.NoParse? then NoParse
    else
      var s1 := SkipWs(value.rest);
      if Starts(s1, ',') then
        var r := ParseItems(s1[1..]);
        if r.NoParse? then NoParse else Parsed(MoreItems(Ws(s), value.tree, Ws(value.rest), r.tree), r.rest)
      else if Starts(s1, ']') then Parsed(LastItem(Ws(s), value.tree, Ws(value.rest)), s1[1..])
      else NoParse
  }

  // ---------------------------------- soundness: what is parsed is the text of a well-formed tree

  lemma {:induction false} BodySound(s: string)
    requires BodyEnd(s).Some?
    ensures var n := BodyEnd(s).value; IsBody(s[..n]) && s[n] == '"'
  {
    var n := BodyEnd(s).value;
    if s[0] == '\\' {
      BodySound(s[2..]);
      assert s[..n][2..] == s[2..][..n - 2];
    } else if s[0] != '"' {
      BodySound(s[1..]);
      assert s[..n][1..] == s[1..][..n - 1];
    }
  }

  lemma LiteralSound(s: string)
    requires ParseLiteral(s).Parsed?
    ensures IsLiteral(ParseLiteral(s).tree) && s == ParseLiteral(s).tree + ParseLiteral(s).rest
  {
    BodySound(s[1..]);
    var n := BodyEnd(s[1..]).value;
    assert s[..n + 2][1..n + 1] == s[1..][..n];
  }

  lemma ExponentSound(s: string)
    ensures var n := ExponentEnd(s); n == 0 || IsExponent(s[..n])
  {
    var n := ExponentEnd(s);
    if n > 0 {
      var sign := if s[1] == '+' || s[1] == '-' then 1 else 0;
      assert s[..n][1 + sign..] == s[1 + sign..][..n - 1 - sign];
    }
  }

  lemma WholeSound(s: string)
    requires WholeEnd(s) > 0
    ensures IsWhole(s[..WholeEnd(s)])
  {
  }

  lemma FractionSound(s: string)
    ensures IsFraction(s[..FractionEnd(s)])
  {
    var f := s[..FractionEnd(s)];
    if f != "" {
      assert f[1..] == s[1..][..|f| - 1];
    }
  }

  lemma TwoCuts(s: string, i: nat, n: nat)
    requires i <= |s| && n <= |s| - i
    ensures s[..i + n] == s[..i] + s[i..][..n]
  {
  }

  ghost predicate IsTail(raw: string) {
    exists f, e :: IsFraction(f) && (e == "" || IsExponent(e)) && raw == f + e
  }

  ghost predicate IsUnsigned(raw: string) {
    exists n: NumberParts :: n.minus == "" && AreNumberParts(n) && raw == n.whole + (n.frac + n.exp)
  }

  lemma TailSound(s: string)
    ensures IsTail(s[..FractionExponentEnd(s)])
  {
    var f := FractionEnd(s);
    FractionSound(s);
    ExponentSound(s[f..]);
    TwoCuts(s, f, ExponentEnd(s[f..]));
  }

  lemma UnsignedSound(s: string)
    requires UnsignedEnd(s) > 0
    ensures IsUnsigned(s[..UnsignedEnd(s)])
  {
    var w := WholeEnd(s);
    WholeSound(s);
    TailSound(s[w..]);
    TwoCuts(s, w, FractionExponentEnd(s[w..]));
    UnsignedJoin(s[..w], s[w..][..FractionExponentEnd(s[w..])]);
  }

  lemma UnsignedJoin(whole: string, tail: string)
    requires IsWhole(whole) && IsTail(tail)
    ensures IsUnsigned(whole + tail)
  {
    var f, e :| IsFraction(f) && (e == "" || IsExponent(e)) && tail == f + e;
    var n := NumberParts("", whole, f, e);
    assert AreNumberParts(n);
  }

  lemma SignedJoin(minus: string, raw: string)
    requires (minus == "" || minus == "-") && IsUnsigned(raw)
    ensures IsNumber(minus + raw)
  {
    var n: NumberParts :| n.minus == "" && AreNumberParts(n) && raw == n.whole + (n.frac + n.exp);
    assert AreNumberParts(n.(minus := minus)) && NumberText(n.(minus := minus)) == minus + raw;
  }

  lemma NumberSound(s: string)
    requires NumberEnd(s) > 0
    ensures IsNumber(s[..NumberEnd(s)])
  {
    if Starts(s, '-') {
      UnsignedSound(s[1..]);
      SignedJoin("-", s[1..][..UnsignedEnd(s[1..])]);
      TwoCuts(s, 1, UnsignedEnd(s[1..]));
      assert s[..1] == "-";
    } else {
      UnsignedSound(s);
      SignedJoin("", s[..UnsignedEnd(s)]);
      assert "" + s[..UnsignedEnd(s)] == s[..UnsignedEnd(s)];
    }
  }

  lemma {:induction false} WsSplit(s: string)
    ensures All(Ws(s), IsWs) && s == Ws(s) + SkipWs(s)
  {
    if s != "" && IsWs(s[0]) {
      WsSplit(s[1..]);
      SplitHead(s[0], s);
      Assoc([s[0]], Ws(s[1..]), SkipWs(s[1..]));
    }
  }

  lemma WordSound(s: string)
    requires ParseWord(s).Parsed?
    ensures WellFormed(Word(ParseWord(s).tree)) && s == ParseWord(s).tree + ParseWord(s).rest
  {
    SplitPrefix(ParseWord(s).tree, s);
  }

  lemma ScalarSound(s: string)
    requires ParseScalar(s).Parsed?
    ensures WellFormed(ParseScalar(s).tree) && s == Text(ParseScalar(s).tree) + ParseScalar(s).rest
  {
    if ParseWord(s).Parsed? {
      WordSound(s);
    } else {
      NumberSound(s);
      Split(s, NumberEnd(s));
    }
  }

  lemma {:induction false} ValueSound(s: string)
    requires ParseValue(s).Parsed?
    ensures WellFormed(ParseValue(s).tree) && s == Text(ParseValue(s).tree) + ParseValue(s).rest
    decreases |s|, 1
  {
    if s[0] == '{' {
      ObjectSound(s);
    } else if s[0] == '[' {
      ArraySound(s);
    } else if s[0] == '"' {
      LiteralSound(s);
    } else {
      ScalarSound(s);
    }
  }

  lemma {:induction false} ArraySound(s: string)
    requires ParseArray(s).Parsed?
    ensures WellFormed(ParseArray(s).tree) && s == Text(ParseArray(s).tree) + ParseArray(s).rest
    decreases |s|, 0
  {
    var rest := ParseArray(s).rest;
    SplitHead('[', s);
    if Starts(SkipWs(s[1..]), ']') {
      WsSplit(s[1..]);
      SplitHead(']', SkipWs(s[1..]));
      EmptyChain("[", Ws(s[1..]), "]", rest, s, s[1..], SkipWs(s[1..]));
    } else {
      ItemsSound(s[1..]);
      Assoc("[", ItemsText(ParseItems(s[1..]).tree), rest);
    }
  }

  lemma {:induction false} ObjectSound(s: string)
    requires ParseObject(s).Parsed?
    ensures WellFormed(ParseObject(s).tree) && s == Text(ParseObject(s).tree) + ParseObject(s).rest
    ensures ParseObject(s).tree.Object? || ParseObject(s).tree.EmptyObject?
    decreases |s|, 0
  {
    SplitHead('{', s);
    if Starts(SkipWs(s[1..]), '}') {
      WsSplit(s[1..]);
      SplitHead('}', SkipWs(s[1..]));
      EmptyChain("{", Ws(s[1..]), "}", ParseObject(s).rest, s, s[1..], SkipWs(s[1..]));
    } else {
      MembersSound(s[1..]);
      Assoc("{", MembersText(ParseMembers(s[1..]).tree), ParseObject(s).rest);
    }
  }

  lemma EmptyChain(open: string, ws: string, close: string, rest: string, s: string, s1: string, s2: string)
    requires s == open + s1 && s1 == ws + s2 && s2 == close + rest
    ensures s == (open + (ws + close)) + rest
  {
  }

  lemma {:induction false} MembersSound(s: string)
    requires ParseMembers(s).Parsed?
    ensures WellFormedMembers(ParseMembers(s).tree) && s == MembersText(ParseMembers(s).tree) + ParseMembers(s).rest
    decreases |s|, 3
  {
    var ms, rest := ParseMembers(s).tree, ParseMembers(s).rest;
    var tail := ParseMember(s).rest;
    var close := MembersClose(ms);
    if ms.MoreMembers? {
      MembersSound(tail[1..]);
      SplitHead(',', tail);
    } else {
      SplitHead('}', tail);
    }
    if ms.MoreMembers? {
      Assoc(",", MembersText(ms.rest), rest);
    }
    MemberSound(s, close, rest);
  }

  lemma {:induction false} MemberSound(s: string, close: string, rest: string)
    requires ParseMember(s).Parsed? && ParseMember(s).rest == close + rest
    ensures WellFormedMember(ParseMember(s).tree) && s == MemberText(ParseMember(s).tree, close) + rest
    decreases |s|, 2
  {
    var m := ParseMember(s).tree;
    var s0 := ParseLiteral(SkipWs(s)).rest;
    var s1 := SkipWs(s0)[1..];
    var s2 := ParseValue(SkipWs(s1)).rest;
    WsSplit(s);
    LiteralSound(SkipWs(s));
    WsSplit(s0);
    SplitHead(':', SkipWs(s0));
    WsSplit(s1);
    ValueSound(SkipWs(s1));
    WsSplit(s2);
    MemberChain(m, close, rest, s, SkipWs(s), s0, s1, SkipWs(s1), s2);
  }

  /** Gluing a member's text back together from the successive rests of the line. */
  lemma MemberChain(m: Member, close: string, rest: string,
                    s: string, k: string, s0: string, s1: string, v: string, s2: string)
    requires s == m.ws0 + k && k == m.key + s0
    requires s0 == m.ws1 + (":" + s1)
    requires s1 == m.ws2 + v && v == Text(m.value) + s2
    requires s2 == m.ws3 + (close + rest)
    ensures s == MemberText(m, close) + rest
  {
    var t3 := m.ws3 + close;
    var t2 := m.ws2 + (Text(m.value) + t3);
    assert s2 == t3 + rest;
    assert s1 == t2 + rest;
    assert s0 == (m.ws1 + (":" + t2)) + rest;
  }

  lemma {:induction false} ItemsSound(s: string)
    requires ParseItems(s).Parsed?
    ensures WellFormedItems(ParseItems(s).tree) && s == ItemsText(ParseItems(s).tree) + ParseItems(s).rest
    decreases |s|, 3
  {
    var items, rest := ParseItems(s).tree, ParseItems(s).rest;
    var s1 := ParseValue(SkipWs(s)).rest;
    var tail := SkipWs(s1);
    WsSplit(s);
    ValueSound(SkipWs(s));
    WsSplit(s1);
    if items.MoreItems? {
      ItemsSound(tail[1..]);
      SplitHead(',', tail);
      Assoc(",", ItemsText(items.rest), rest);
    } else {
      SplitHead(']', tail);
    }
    ItemChain(items.ws0, Text(items.value), items.ws1, ItemsClose(items), rest, s, SkipWs(s), s1, tail);
  }

  lemma ItemChain(ws0: string, value: string, ws1: string, close: string, rest: string,
                  s: string, v: string, s1: string, tail: string)
    requires s == ws0 + v && v == value + s1 && s1 == ws1 + tail && tail == close + rest
    ensures s == (ws0 + (value + (ws1 + close))) + rest
  {
    assert s1 == (ws1 + close) + rest;
  }

  // ---------------------------------- completeness: the text of a well-formed tree parses back to it

  lemma {:induction false} BodyComplete(body: string, rest: string)
    requires IsBody(body)
    ensures BodyEnd(body + ("\"" + rest)) == Some(|body|)
  {
    var s := body + ("\"" + rest);
    if body == "" {
      assert s[0] == '"';
    } else if body[0] == '\\' {
      BodyComplete(body[2..], rest);
      assert s[2..] == body[2..] + ("\"" + rest);
    } else {
      BodyComplete(body[1..], rest);
      assert s[1..] == body[1..] + ("\"" + rest);
    }
  }

  lemma LiteralComplete(raw: string, rest: string)
    requires IsLiteral(raw)
    ensures ParseLiteral(raw + rest) == Parsed(raw, rest)
  {
    var body := raw[1..|raw| - 1];
    var s := raw + rest;
    BodyComplete(body, rest);
    assert s[1..] == body + ("\"" + rest);
    assert s[..|raw|] == raw && s[|raw|..] == rest;
  }

  /** No character here could lengthen a number before it. */
  predicate Stops(rest: string) {
    rest == "" || !(IsDigit(rest[0]) || rest[0] == '.' || rest[0] == 'e' || rest[0] == 'E')
  }

  lemma Drop(a: string, b: string)
    ensures (a + b)[..|a|] == a && (a + b)[|a|..] == b
  {
  }

  lemma ExponentComplete(exp: string, rest: string)
    requires (exp == "" || IsExponent(exp)) && Stops(rest)
    ensures ExponentEnd(exp + rest) == |exp|
  {
    if exp == "" {
      assert exp + rest == rest;
    } else {
      var sign := if exp[1] == '+' || exp[1] == '-' then 1 else 0;
      SpanExact(exp[1 + sign..], rest, IsDigit);
      assert (exp + rest)[1 + sign..] == exp[1 + sign..] + rest;
    }
  }

  lemma FractionComplete(frac: string, rest: string)
    requires IsFraction(frac)
    requires rest == "" || !(IsDigit(rest[0]) || rest[0] == '.')
    ensures FractionEnd(frac + rest) == |frac|
  {
    if frac == "" {
      assert frac + rest == rest;
    } else {
      SpanExact(frac[1..], rest, IsDigit);
      assert (frac + rest)[1..] == frac[1..] + rest;
    }
  }

  lemma WholeComplete(whole: string, rest: string)
    requires IsWhole(whole)
    requires rest == "" || !IsDigit(rest[0])
    ensures WholeEnd(whole + rest) == |whole|
  {
    assert (whole + rest)[0] == whole[0];
    if whole != "0" {
      SpanExact(whole, rest, IsDigit);
    }
  }

  lemma NumberComplete(raw: string, rest: string)
    requires IsNumber(raw) && Stops(rest)
    ensures NumberEnd(raw + rest) == |raw| > 0
  {
    var n: NumberParts :| AreNumberParts(n) && NumberText(n) == raw;
    NumberGlue(n, rest);
    PartsComplete(n, rest);
    NumberEndsAt(n.minus, n.whole, n.frac, n.exp, rest);
  }

  lemma PartsComplete(n: NumberParts, rest: string)
    requires AreNumberParts(n) && Stops(rest)
    ensures ExponentEnd(n.exp + rest) == |n.exp| && FractionEnd(n.frac + (n.exp + rest)) == |n.frac|
    ensures WholeEnd(n.whole + (n.frac + (n.exp + rest))) == |n.whole| > 0
    ensures Starts(n.minus + (n.whole + (n.frac + (n.exp + rest))), '-') <==> n.minus == "-"
  {
    ExponentComplete(n.exp, rest);
    FractionComplete(n.frac, n.exp + rest);
    WholeComplete(n.whole, n.frac + (n.exp + rest));
    MinusComplete(n.minus, n.whole + (n.frac + (n.exp + rest)));
  }

  lemma NumberGlue(n: NumberParts, rest: string)
    ensures NumberText(n) + rest == n.minus + (n.whole + (n.frac + (n.exp + rest)))
  {
    Assoc(n.minus, n.whole + (n.frac + n.exp), rest);
    Assoc(n.whole, n.frac + n.exp, rest);
    Assoc(n.frac, n.exp, rest);
  }

  lemma NumberEndsAt(a: string, b: string, c: string, d: string, rest: string)
    requires ExponentEnd(d + rest) == |d| && FractionEnd(c + (d + rest)) == |c| &&
        WholeEnd(b + (c + (d + rest))) == |b| > 0
    requires a == "" || a == "-"
    requires Starts(a + (b + (c + (d + rest))), '-') <==> a == "-"
    ensures NumberEnd(a + (b + (c + (d + rest)))) == |a| + |b| + |c| + |d|
  {
    Drop(c, d + rest);
    assert FractionExponentEnd(c + (d + rest)) == |c| + |d|;
    Drop(b, c + (d + rest));
    assert UnsignedEnd(b + (c + (d + rest))) == |b| + |c| + |d|;
    Drop(a, b + (c + (d + rest)));
    if a == "" {
      assert a + (b + (c + (d + rest))) == b + (c + (d + rest));
    }
  }

  lemma MinusComplete(minus: string, rest: string)
    requires (minus == "" || minus == "-") && rest != "" && rest[0] != '-'
    ensures Starts(minus + rest, '-') <==> minus == "-"
  {
    if minus == "" {
      assert minus + rest == rest;
    }
  }

  // ---- the pattern is greedy: whatever follows, it takes no less than any number there

  lemma {:induction false} SpanAtLeast(a: string, b: string)
    requires All(a, IsDigit)
    ensures |a| <= Span(a + b, IsDigit)
    ensures |a| < Span(a + b, IsDigit) ==> b != "" && IsDigit(b[0])
  {
    if a == "" {
      assert a + b == b;
    } else {
      assert (a + b)[1..] == a[1..] + b;
      SpanAtLeast(a[1..], b);
    }
  }

  lemma ExponentAtLeast(exp: string, rest: string)
    requires exp == "" || IsExponent(exp)
    ensures |exp| <= ExponentEnd(exp + rest)
  {
    if exp != "" {
      var sign := if exp[1] == '+' || exp[1] == '-' then 1 else 0;
      SpanAtLeast(exp[1 + sign..], rest);
      assert (exp + rest)[1 + sign..] == exp[1 + sign..] + rest;
    }
  }

  lemma TailAtLeast(frac: string, exp: string, rest: string)
    requires IsFraction(frac) && (exp == "" || IsExponent(exp))
    ensures |frac| + |exp| <= FractionExponentEnd(frac + (exp + rest))
  {
    var s, tail := frac + (exp + rest), exp + rest;
    ExponentAtLeast(exp, rest);
    assert exp != "" ==> tail[0] == exp[0];
    if frac == "" {
      assert s == tail;
      assert exp != "" ==> FractionEnd(tail) == 0 && tail[0..] == tail;
    } else {
      SpanAtLeast(frac[1..], tail);
      assert s[1..] == frac[1..] + tail;
      if FractionEnd(s) == |frac| {
        assert s[|frac|..] == tail;
      }
    }
  }

  lemma UnsignedAtLeast(whole: string, frac: string, exp: string, rest: string)
    requires IsWhole(whole) && IsFraction(frac) && (exp == "" || IsExponent(exp))
    ensures |whole| + |frac| + |exp| <= UnsignedEnd(whole + (frac + (exp + rest)))
  {
    var tail := frac + (exp + rest);
    var s := whole + tail;
    TailAtLeast(frac, exp, rest);
    assert s[0] == whole[0];
    assert frac != "" ==> tail[0] == frac[0];
    assert frac == "" && exp != "" ==> tail[0] == exp[0];
    if whole != "0" {
      SpanAtLeast(whole, tail);
    }
    if WholeEnd(s) == |whole| {
      assert s[|whole|..] == tail;
    }
  }

  lemma NumberAtLeast(raw: string, rest: string)
    requires IsNumber(raw)
    ensures 0 < |raw| <= NumberEnd(raw + rest)
  {
    var n: NumberParts :| AreNumberParts(n) && NumberText(n) == raw;
    NumberGlue(n, rest);
    var tail := n.whole + (n.frac + (n.exp + rest));
    UnsignedAtLeast(n.whole, n.frac, n.exp, rest);
    MinusComplete(n.minus, tail);
    if n.minus == "-" {
      assert (n.minus + tail)[1..] == tail;
    } else {
      assert n.minus + tail == tail;
    }
  }

  /** What is matched is a number, and no longer stretch from the same place is one. */
  lemma NumberIsLongest(s: string, n: nat)
    requires n <= |s| && IsNumber(s[..n])
    ensures ParseNumber(s).Parsed? && n <= |ParseNumber(s).tree| && IsNumber(ParseNumber(s).tree)
  {
    Split(s, n);
    NumberAtLeast(s[..n], s[n..]);
    NumberSound(s);
  }

  lemma {:induction false} WsComplete(ws: string, rest: string)
    requires All(ws, IsWs) && (rest != "" ==> !IsWs(rest[0]))
    ensures Ws(ws + rest) == ws && SkipWs(ws + rest) == rest
  {
    if ws == "" {
      assert ws + rest == rest;
    } else {
      assert (ws + rest)[1..] == ws[1..] + rest;
      WsComplete(ws[1..], rest);
      assert ws == [ws[0]] + ws[1..];
    }
  }

  /** A value's text starts with its first character, which is no whitespace. */
  lemma ValueStart(t: Json)
    requires WellFormed(t)
    ensures Text(t) != "" && !IsWs(Text(t)[0])
    ensures t.Str? <==> Text(t)[0] == '"'
    ensures t.Object? || t.EmptyObject? <==> Text(t)[0] == '{'
    ensures t.Array? || t.EmptyArray? <==> Text(t)[0] == '['
    ensures Text(t)[0] != ']' && Text(t)[0] != '}'
  {
    if t.Num? {
      NumberStart(t.raw);
    }
  }

  lemma WordComplete(w: string, rest: string)
    requires w == "true" || w == "false" || w == "null"
    ensures ParseWord(w + rest) == Parsed(w, rest)
  {
    Drop(w, rest);
    assert (w + rest)[0] == w[0];
  }

  lemma NumberIsNoWord(s: string)
    requires s != "" && (s[0] == '-' || IsDigit(s[0]))
    ensures ParseWord(s).NoParse?
  {
  }

  lemma NumberStart(raw: string)
    requires IsNumber(raw)
    ensures raw != "" && (raw[0] == '-' || IsDigit(raw[0]))
  {
    var n: NumberParts :| AreNumberParts(n) && NumberText(n) == raw;
    if n.minus == "" {
      assert raw[0] == n.whole[0];
    }
  }

  lemma ScalarComplete(t: Json, rest: string)
    requires WellFormed(t) && (t.Num? || t.Word?) && Stops(rest)
    ensures ParseScalar(Text(t) + rest) == Parsed(t, rest)
  {
    if t.Num? {
      NumberComplete(t.raw, rest);
      NumberStart(t.raw);
      NumberIsNoWord(t.raw + rest);
      Drop(t.raw, rest);
    } else {
      WordComplete(t.word, rest);
    }
  }

  lemma {:induction false} ValueComplete(t: Json, rest: string)
    requires WellFormed(t) && Stops(rest)
    ensures ParseValue(Text(t) + rest) == Parsed(t, rest)
    decreases t, 1
  {
    ValueStart(t);
    assert (Text(t) + rest)[0] == Text(t)[0];
    match t
    case Str(raw) => LiteralComplete(raw, rest);
    case Num(_) => ScalarComplete(t, rest);
    case Word(_) => ScalarComplete(t, rest);
    case EmptyObject(_) => ObjectComplete(t, rest);
    case Object(_) => ObjectComplete(t, rest);
    case EmptyArray(_) => ArrayComplete(t, rest);
    case Array(_) => ArrayComplete(t, rest);
  }

  lemma {:induction false} ObjectComplete(t: Json, rest: string)
    requires WellFormed(t) && (t.Object? || t.EmptyObject?)
    ensures ParseObject(Text(t) + rest) == Parsed(t, rest)
    decreases t, 0
  {
    var inner := if t.EmptyObject? then t.ws + "}" else MembersText(t.members);
    Assoc("{", inner, rest);
    Drop("{", inner + rest);
    if t.EmptyObject? {
      Assoc(t.ws, "}", rest);
      WsComplete(t.ws, "}" + rest);
      Drop("}", rest);
    } else {
      MembersComplete(t.members, rest);
      MembersStart(t.members, rest);
    }
  }

  /** After skipping whitespace, a nonempty object continues with its first key. */
  lemma MembersStart(ms: Members, rest: string)
    requires WellFormedMembers(ms)
    ensures !Starts(SkipWs(MembersText(ms) + rest), '}')
  {
    var m := ms.member;
    var tail := m.ws1 + (":" + (m.ws2 + (Text(m.value) + (m.ws3 + MembersClose(ms)))));
    Assoc(m.ws0, m.key + tail, rest);
    WsComplete(m.ws0, (m.key + tail) + rest);
    assert ((m.key + tail) + rest)[0] == m.key[0];
  }

  lemma ItemsStart(items: Items, rest: string)
    requires WellFormedItems(items)
    ensures !Starts(SkipWs(ItemsText(items) + rest), ']')
  {
    var tail := items.ws1 + ItemsClose(items);
    ValueStart(items.value);
    Assoc(items.ws0, Text(items.value) + tail, rest);
    WsComplete(items.ws0, (Text(items.value) + tail) + rest);
    assert ((Text(items.value) + tail) + rest)[0] == Text(items.value)[0];
  }

  lemma {:induction false} ArrayComplete(t: Json, rest: string)
    requires WellFormed(t) && (t.Array? || t.EmptyArray?)
    ensures ParseArray(Text(t) + rest) == Parsed(t, rest)
    decreases t, 0
  {
    var inner := if t.EmptyArray? then t.ws + "]" else ItemsText(t.items);
    Assoc("[", inner, rest);
    Drop("[", inner + rest);
    if t.EmptyArray? {
      Assoc(t.ws, "]", rest);
      WsComplete(t.ws, "]" + rest);
      Drop("]", rest);
    } else {
      ItemsComplete(t.items, rest);
      ItemsStart(t.items, rest);
    }
  }

  predicate Closes(tail: string) {
    tail != "" && (tail[0] == ',' || tail[0] == '}' || tail[0] == ']')
  }

  lemma {:induction false} MemberComplete(m: Member, tail: string)
    requires WellFormedMember(m) && Closes(tail)
    ensures ParseMember(MemberText(m, tail)) == Parsed(m, tail)
    decreases m, 2
  {
    var s2 := m.ws3 + tail;
    var v := Text(m.value) + s2;
    var s1 := m.ws2 + v;
    var c := ":" + s1;
    var s0 := m.ws1 + c;
    WsComplete(m.ws3, tail);
    ValueStart(m.value);
    assert v[0] == Text(m.value)[0];
    ValueComplete(m.value, s2);
    WsComplete(m.ws2, v);
    Drop(":", s1);
    WsComplete(m.ws1, c);
    LiteralComplete(m.key, s0);
    assert (m.key + s0)[0] == m.key[0];
    WsComplete(m.ws0, m.key + s0);
  }

  lemma {:induction false} MembersComplete(ms: Members, rest: string)
    requires WellFormedMembers(ms)
    ensures ParseMembers(MembersText(ms) + rest) == Parsed(ms, rest)
    decreases ms, 3
  {
    MemberTextAppend(ms.member, MembersClose(ms), rest);
    match ms
    case LastMember(m) =>
      MemberComplete(m, "}" + rest);
      Drop("}", rest);
    case MoreMembers(m, more) =>
      Assoc(",", MembersText(more), rest);
      var tail := MembersText(more) + rest;
      MemberComplete(m, "," + tail);
      Drop(",", tail);
      MembersComplete(more, rest);
  }

  lemma MemberTextAppend(m: Member, close: string, rest: string)
    ensures MemberText(m, close) + rest == MemberText(m, close + rest)
  {
    var v := Text(m.value) + (m.ws3 + (close + rest));
    var s1 := m.ws2 + v;
    var s0 := m.ws1 + (":" + s1);
    MemberChain(m, close, rest, m.ws0 + (m.key + s0), m.key + s0, s0, s1, v, m.ws3 + (close + rest));
  }

  lemma {:induction false} ItemsComplete(items: Items, rest: string)
    requires WellFormedItems(items)
    ensures ParseItems(ItemsText(items) + rest) == Parsed(items, rest)
    decreases items, 3
  {
    var tail := ItemsClose(items) + rest;
    var s1 := items.ws1 + tail;
    var v := Text(items.value) + s1;
    ItemChain(items.ws0, Text(items.value), items.ws1, ItemsClose(items), rest, items.ws0 + v, v, s1, tail);
    WsComplete(items.ws1, tail);
    ValueStart(items.value);
    assert v[0] == Text(items.value)[0];
    ValueComplete(items.value, s1);
    WsComplete(items.ws0, v);
    match items
    case LastItem(_, _, _) =>
      Drop("]", rest);
    case MoreItems(_, _, _, more) =>
      Assoc(",", ItemsText(more), rest);
      Drop(",", ItemsText(more) + rest);
      ItemsComplete(more, rest);
  }

  // ---------------------------------------------------------------- the tokens spell the text

  lemma WsTexts(ws: string)
    ensures Texts(WsTokens(ws)) == ws
  {
  }

  lemma OneText(t: Token)
    ensures Texts([t]) == t.text
  {
  }

  lemma {:induction false} TokensSpellText(b: Browser, t: Json, isLevel: bool)
    ensures Texts(Tokens(b, t, isLevel)) == Text(t)
    decreases t, 0
  {
    match t
    case Str(_) =>
    case Num(_) =>
    case Word(_) =>
    case EmptyObject(ws) => PairSpells(PunctToken("{"), ws, PunctToken("}"));
    case Object(members) =>
      TextsAppend([PunctToken("{")], MembersTokens(b, members));
      MembersSpellText(b, members);
    case EmptyArray(ws) => PairSpells(PunctToken("["), ws, PunctToken("]"));
    case Array(items) =>
      TextsAppend([PunctToken("[")], ItemsTokens(b, items));
      ItemsSpellText(b, items);
  }

  lemma PairSpells(open: Token, ws: string, close: Token)
    ensures Texts([open] + WsTokens(ws) + [close]) == open.text + (ws + close.text)
  {
    TextsAppend([open] + WsTokens(ws), [close]);
    TextsAppend([open], WsTokens(ws));
    WsTexts(ws);
    OneText(open);
    OneText(close);
    Assoc(open.text, ws, close.text);
  }

  lemma {:induction false} MemberSpellsText(b: Browser, m: Member, close: string)
    ensures Texts(MemberTokens(b, m)) + close == MemberText(m, close)
    decreases m, 1
  {
    var key, colon := [Token(KeyTok, m.key, None)], [PunctToken(":")];
    var value := Tokens(b, m.value, IsLevelKey(b, m.key));
    var t0 := WsTokens(m.ws0);
    var t1 := t0 + key;
    var t2 := t1 + WsTokens(m.ws1);
    var t3 := t2 + colon;
    var t4 := t3 + WsTokens(m.ws2);
    var t5 := t4 + value;
    TextsAppend(t5, WsTokens(m.ws3));
    TextsAppend(t4, value);
    TextsAppend(t3, WsTokens(m.ws2));
    TextsAppend(t2, colon);
    TextsAppend(t1, WsTokens(m.ws1));
    TextsAppend(t0, key);
    WsTexts(m.ws0); WsTexts(m.ws1); WsTexts(m.ws2); WsTexts(m.ws3);
    OneText(key[0]);
    OneText(colon[0]);
    TokensSpellText(b, m.value, IsLevelKey(b, m.key));
    GlueSeven(m.ws0, m.key, m.ws1, ":", m.ws2, Text(m.value), m.ws3, close);
  }

  lemma GlueSeven(a: string, b: string, c: string, d: string, e: string, f: string, g: string, h: string)
    ensures ((((((a + b) + c) + d) + e) + f) + g) + h == a + (b + (c + (d + (e + (f + (g + h))))))
  {
    Assoc(((((a + b) + c) + d) + e) + f, g, h);
    Assoc((((a + b) + c) + d) + e, f, g + h);
    Assoc(((a + b) + c) + d, e, f + (g + h));
    Assoc((a + b) + c, d, e + (f + (g + h)));
    Assoc(a + b, c, d + (e + (f + (g + h))));
    Assoc(a, b, c + (d + (e + (f + (g + h)))));
  }

  lemma {:induction false} MembersSpellText(b: Browser, ms: Members)
    ensures Texts(MembersTokens(b, ms)) == MembersText(ms)
    decreases ms, 2
  {
    MemberSpellsText(b, ms.member, MembersClose(ms));
    match ms
    case LastMember(m) =>
      TextsAppend(MemberTokens(b, m), [PunctToken("}")]);
      OneText(PunctToken("}"));
    case MoreMembers(m, rest) =>
      TextsAppend(MemberTokens(b, m), [PunctToken(",")] + MembersTokens(b, rest));
      TextsAppend([PunctToken(",")], MembersTokens(b, rest));
      OneText(PunctToken(","));
      MembersSpellText(b, rest);
  }

  lemma {:induction false} ItemsSpellText(b: Browser, items: Items)
    ensures Texts(ItemsTokens(b, items)) == ItemsText(items)
    decreases items, 2
  {
    var ws0, value, ws1 := WsTokens(items.ws0), Tokens(b, items.value, false), WsTokens(items.ws1);
    var close :=
      match items
      case LastItem(_, _, _) => [PunctToken("]")]
      case MoreItems(_, _, _, rest) => [PunctToken(",")] + ItemsTokens(b, rest);
    TextsAppend(ws0 + value + ws1, close);
    TextsAppend(ws0 + value, ws1);
    TextsAppend(ws0, value);
    WsTexts(items.ws0); WsTexts(items.ws1);
    TokensSpellText(b, items.value, false);
    if items.MoreItems? {
      TextsAppend([PunctToken(",")], ItemsTokens(b, items.rest));
      OneText(PunctToken(","));
      ItemsSpellText(b, items.rest);
    } else {
      OneText(PunctToken("]"));
    }
    assert Texts(close) == ItemsClose(items);
    Assoc(items.ws0 + Text(items.value), items.ws1, ItemsClose(items));
    Assoc(items.ws0, Text(items.value), items.ws1 + ItemsClose(items));
  }

  // ---------------------------------------------------------------- every token is what its kind says

  /** What each kind of token holds; a level token is the value of a level key, recognized as some severity. */
  ghost predicate Fits(t: Token) {
    && t.text != ""
    && (t.kind.LevelTok? <==> t.severity.Some?)
    && match t.kind
       case TextTok => false
       case PunctTok => All(t.text, IsWs) || t.text in {"{", "}", "[", "]", ",", ":"}
       case KeyTok => IsLiteral(t.text)
       case StringTok => IsLiteral(t.text)
       case NumberTok => IsNumber(t.text)
       case KeywordTok => t.text in {"true", "false", "null"}
       case LevelTok => IsLiteral(t.text) || IsNumber(t.text)
  }

  ghost predicate AllFit(tokens: seq<Token>) {
    forall t | t in tokens :: Fits(t)
  }

  lemma WsFits(ws: string)
    requires All(ws, IsWs)
    ensures AllFit(WsTokens(ws))
  {
  }

  lemma {:induction false} TokensFit(b: Browser, t: Json, isLevel: bool)
    requires WellFormed(t)
    ensures AllFit(Tokens(b, t, isLevel))
    decreases t
  {
    match t
    case Str(raw) =>
    case Num(raw) => ValueStart(t);
    case Word(w) =>
    case EmptyObject(ws) => WsFits(ws);
    case Object(members) => MembersFit(b, members);
    case EmptyArray(ws) => WsFits(ws);
    case Array(items) => ItemsFit(b, items);
  }

  lemma {:induction false} MemberFits(b: Browser, m: Member)
    requires WellFormedMember(m)
    ensures AllFit(MemberTokens(b, m))
    decreases m
  {
    WsFits(m.ws0);
    WsFits(m.ws1);
    WsFits(m.ws2);
    WsFits(m.ws3);
    TokensFit(b, m.value, IsLevelKey(b, m.key));
  }

  lemma {:induction false} MembersFit(b: Browser, ms: Members)
    requires WellFormedMembers(ms)
    ensures AllFit(MembersTokens(b, ms))
    decreases ms
  {
    MemberFits(b, ms.member);
    if ms.MoreMembers? {
      MembersFit(b, ms.rest);
    }
  }

  lemma {:induction false} ItemsFit(b: Browser, items: Items)
    requires WellFormedItems(items)
    ensures AllFit(ItemsTokens(b, items))
    decreases items
  {
    WsFits(items.ws0);
    WsFits(items.ws1);
    TokensFit(b, items.value, false);
    if items.MoreItems? {
      ItemsFit(b, items.rest);
    }
  }
}
