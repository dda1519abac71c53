/**
 The JSON-line scanner of web/src/utils/logJson.ts: a class with the scanner's cursor and token list, proved equal to
 the parser of the grammar, so that a line has tokens exactly if the grammar derives it.
 */
module JsonLine {
  import opened Wrappers

  import opened JsText
  import opened JsonGrammar

  // ---------------------------------------------------------------- whole lines

  predicate NotSpace(c: char) {
    !IsSpace(c)
  }

  /** "dddd-dd-ddT", the narrow start of the kubelet's RFC 3339 stamp. */
  predicate StartsLikeStamp(s: string) {
    && |s| >= 11
    && All(s[..4], IsDigit) && s[4] == '-' && All(s[5..7], IsDigit) && s[7] == '-' && All(s[8..10], IsDigit)
    && s[10] == 'T'
  }

  /** A whole timestamp prefix: the date, any run of non-space, then whitespace. */
  predicate IsStamp(p: string) {
    StartsLikeStamp(p) && exists k :: 11 <= k < |p| && All(p[11..k], NotSpace) && All(p[k..], IsSpace)
  }

  /** year "-" month "-" day "T", a run of non-space, then whitespace. */
  lemma StampsExactly(p: string)
    ensures IsStamp(p) <==>
              exists y, m, d, word, gap ::
                IsStampParts(y, m, d, word, gap) && p == y + ("-" + (m + ("-" + (d + ("T" + (word + gap))))))
  {
    if IsStamp(p) {
      var k :| 11 <= k < |p| && All(p[11..k], NotSpace) && All(p[k..], IsSpace);
      assert IsStampParts(p[..4], p[5..7], p[8..10], p[11..k], p[k..]);
      StampIsParts(p, k);
    }
    forall y, m, d, word, gap |
      IsStampParts(y, m, d, word, gap) && p == y + ("-" + (m + ("-" + (d + ("T" + (word + gap))))))
      ensures IsStamp(p)
    {
      PartsAreStamp(p, y, m, d, word, gap);
    }
  }

  predicate IsStampParts(y: string, m: string, d: string, word: string, gap: string) {
    && |y| == 4 && |m| == 2 && |d| == 2 && All(y, IsDigit) && All(m, IsDigit) && All(d, IsDigit)
    && All(word, NotSpace) && gap != "" && All(gap, IsSpace)
  }

  lemma StampIsParts(p: string, k: nat)
    requires 11 <= k <= |p| && p[4] == '-' && p[7] == '-' && p[10] == 'T'
    ensures p == p[..4] + ("-" + (p[5..7] + ("-" + (p[8..10] + ("T" + (p[11..k] + p[k..]))))))
  {
  }

  lemma PartsAreStamp(p: string, y: string, m: string, d: string, word: string, gap: string)
    requires IsStampParts(y, m, d, word, gap)
    requires p == y + ("-" + (m + ("-" + (d + ("T" + (word + gap))))))
    ensures IsStamp(p)
  {
    var k := 11 + |word|;
    assert |p| == k + |gap|;
    assert p[..4] == y && p[5..7] == m && p[8..10] == d;
    assert p[4] == '-' && p[7] == '-' && p[10] == 'T';
    assert p[11..k] == word && p[k..] == gap;
  }

  function StampEnd(line: string): (n: nat)
    ensures n <= |line|
  {
    if !StartsLikeStamp(line) then 0
    else
      var word := Span(line[11..], NotSpace);
      var gap := Span(line[11 + word..], IsSpace);
      if gap == 0 then 0 else 11 + word + gap
  }

  lemma StampSound(line: string)
    ensures StampEnd(line) == 0 || IsStamp(line[..StampEnd(line)])
  {
    var n := StampEnd(line);
    if n > 0 {
      var k := 11 + Span(line[11..], NotSpace);
      PartOfPrefix(line, n, 11, k);
      PartOfPrefix(line, n, k, n);
      PartOfPrefix(line, n, 0, 4);
      PartOfPrefix(line, n, 5, 7);
      PartOfPrefix(line, n, 8, 10);
    }
  }

  /** A stretch of a prefix is that stretch of the text. */
  lemma PartOfPrefix(s: string, n: nat, i: nat, j: nat)
    requires i <= j <= n <= |s|
    ensures s[..n][i..j] == s[i..j] == s[i..][..j - i]
    ensures j == n ==> s[..n][i..] == s[i..j]
    ensures i == 0 ==> s[..n][..j] == s[..j]
  {
  }

  lemma StampStarts(p: string, src: string)
    requires |p| >= 11
    ensures StartsLikeStamp(p + src) == StartsLikeStamp(p)
  {
    var line := p + src;
    assert line[..4] == p[..4] && line[5..7] == p[5..7] && line[8..10] == p[8..10];
  }

  lemma StampComplete(p: string, src: string)
    requires (p == "" || IsStamp(p)) && Starts(src, '{')
    ensures StampEnd(p + src) == |p|
  {
    var line := p + src;
    if p == "" {
      assert line == src && src[0] == '{';
      assert |src| >= 4 ==> src[..4][0] == '{';
    } else {
      var k :| 11 <= k < |p| && All(p[11..k], NotSpace) && All(p[k..], IsSpace);
      StampStarts(p, src);
      SplitTwice(p, 11, k);
      Assoc(p[11..k], p[k..], src);
      Assoc(p[..11], p[11..k] + p[k..], src);
      StampTail(line, p[..11], p[11..k], p[k..], src);
    }
  }

  lemma SplitTwice(s: string, i: nat, k: nat)
    requires i <= k <= |s|
    ensures s == s[..i] + (s[i..k] + s[k..])
  {
  }

  lemma StampTail(line: string, date: string, word: string, gap: string, src: string)
    requires line == date + (word + (gap + src)) && StartsLikeStamp(line)
    requires |date| == 11 && All(word, NotSpace) && gap != "" && All(gap, IsSpace) && Starts(src, '{')
    ensures StampEnd(line) == 11 + |word| + |gap|
  {
    Drop(date, word + (gap + src));
    Drop(word, gap + src);
    assert line[11 + |word|..] == gap + src;
    SpanExact(word, gap + src, NotSpace);
    SpanExact(gap, src, IsSpace);
  }

  function TokenizeOf(b: Browser, line: string): Option<seq<Token>> {
    var n := StampEnd(line);
    var r := ParseObject(line[n..]);
    if r.NoParse? || SkipWs(r.rest) != "" then None
    else Some((if n == 0 then [] else [Token(TextTok, line[..n], None)]) + Tokens(b, r.tree, false) + WsTokens(r.rest))
  }

  predicate IsObject(t: Json) {
    t.Object? || t.EmptyObject?
  }

  /** The lines the grammar admits: an optional stamp, an object, trailing whitespace. */
  ghost predicate Derives(line: string, p: string, t: Json, ws: string) {
    (p == "" || IsStamp(p)) && IsObject(t) && WellFormed(t) && All(ws, IsWs) && line == p + (Text(t) + ws)
  }

  /** Every derivation is found, and yields exactly its own tokens. */
  lemma TokenizeComplete(b: Browser, line: string, p: string, t: Json, ws: string)
    requires Derives(line, p, t, ws)
    ensures TokenizeOf(b, line)
         == Some((if p == "" then [] else [Token(TextTok, p, None)]) + Tokens(b, t, false) + WsTokens(ws))
  {
    ObjectComplete(t, ws);
    ValueStart(t);
    assert (Text(t) + ws)[0] == Text(t)[0];
    StampComplete(p, Text(t) + ws);
    Drop(p, Text(t) + ws);
    WsComplete(ws, "");
    assert ws + "" == ws;
  }

  lemma TokenizeSound(b: Browser, line: string)
    requires TokenizeOf(b, line).Some?
    ensures exists p, t, ws :: Derives(line, p, t, ws)
    ensures Texts(TokenizeOf(b, line).value) == line
  {
    var n := StampEnd(line);
    StampSound(line);
    Split(line, n);
    var r := ParseObject(line[n..]);
    ObjectSound(line[n..]);
    WsSplit(r.rest);
    assert Ws(r.rest) == r.rest;
    assert Derives(line, line[..n], r.tree, r.rest);
    var prefix := if n == 0 then [] else [Token(TextTok, line[..n], None)];
    TextsAppend(prefix + Tokens(b, r.tree, false), WsTokens(r.rest));
    TextsAppend(prefix, Tokens(b, r.tree, false));
    TokensSpellText(b, r.tree, false);
    WsTexts(r.rest);
    assert Texts(prefix) == line[..n];
    Assoc(line[..n], Text(r.tree), r.rest);
  }

  /** Tokens exist for exactly the lines of the grammar, and then they spell the line, byte for byte. */
  lemma TokenizesExactlyTheGrammar(b: Browser, line: string)
    ensures TokenizeOf(b, line).Some? <==> exists p, t, ws :: Derives(line, p, t, ws)
    ensures TokenizeOf(b, line).Some? ==> Texts(TokenizeOf(b, line).value) == line
  {
    if TokenizeOf(b, line).Some? {
      TokenizeSound(b, line);
    }
    forall p, t, ws | Derives(line, p, t, ws) ensures TokenizeOf(b, line).Some? {
      TokenizeComplete(b, line, p, t, ws);
    }
  }

  // ---------------------------------------------------------------- the scanner itself

  lemma SkipTwice(s: string)
    ensures Ws(SkipWs(s)) == "" && SkipWs(SkipWs(s)) == SkipWs(s)
  {
  }

  const KEYWORDS := ["true", "false", "null"]

  lemma WordFound(s: string, i: nat)
    requires i < 3 && KEYWORDS[i] <= s && forall k | 0 <= k < i :: !(KEYWORDS[k] <= s)
    ensures ParseWord(s) == Parsed(KEYWORDS[i], s[|KEYWORDS[i]|..])
  {
    assert i > 0 ==> !(KEYWORDS[0] <= s);
    assert i > 1 ==> !(KEYWORDS[1] <= s);
  }

  lemma NoWordFound(s: string)
    requires forall k | 0 <= k < 3 :: !(KEYWORDS[k] <= s)
    ensures ParseWord(s).NoParse?
  {
    assert !(KEYWORDS[0] <= s) && !(KEYWORDS[1] <= s) && !(KEYWORDS[2] <= s);
  }

  lemma GlueMember(b: Browser, base: seq<Token>, m: Member)
    ensures base + WsTokens(m.ws0) + [Token(KeyTok, m.key, None)] + WsTokens(m.ws1) + [PunctToken(":")]
            + WsTokens(m.ws2) + Tokens(b, m.value, IsLevelKey(b, m.key)) + WsTokens(m.ws3)
         == base + MemberTokens(b, m)
  {
  }

  /** Reading the members of `all` has produced `done` and goes on at `start`. */
  ghost predicate ResumesMembers(b: Browser, all: string, start: string, done: seq<Token>) {
    && ParseMembers(all).Parsed? == ParseMembers(start).Parsed?
    && (ParseMembers(all).Parsed? ==>
          && ParseMembers(all).rest == ParseMembers(start).rest
          && MembersTokens(b, ParseMembers(all).tree) == done + MembersTokens(b, ParseMembers(start).tree))
  }

  lemma MembersResume(b: Browser, all: string, start: string, done: seq<Token>)
    requires ResumesMembers(b, all, start, done) && ParseMember(start).Parsed? && Starts(ParseMember(start).rest, ',')
    ensures ResumesMembers(b, all, ParseMember(start).rest[1..],
                           done + (MemberTokens(b, ParseMember(start).tree) + [PunctToken(",")]))
  {
    var m := MemberTokens(b, ParseMember(start).tree);
    var more := ParseMembers(ParseMember(start).rest[1..]);
    if more.Parsed? {
      var rest := MembersTokens(b, more.tree);
      Assoc(m, [PunctToken(",")], rest);
      Assoc(done, m + [PunctToken(",")], rest);
    }
  }

  /** How the loop ends: no member, or a member with neither separator nor close, or the close. */
  lemma MembersEnd(b: Browser, all: string, start: string, done: seq<Token>)
    requires ResumesMembers(b, all, start, done)
    ensures ParseMember(start).NoParse? ==> ParseMembers(all).NoParse?
    ensures ParseMember(start).Parsed? && !Starts(ParseMember(start).rest, ',') ==>
              var m := ParseMember(start);
              && ParseMembers(all).Parsed? == Starts(m.rest, '}')
              && (Starts(m.rest, '}') ==>
                    && ParseMembers(all).rest == m.rest[1..]
                    && MembersTokens(b, ParseMembers(all).tree) == done + (MemberTokens(b, m.tree) + [PunctToken("}")]))
  {
  }

  lemma ItemsEnd(b: Browser, all: string, start: string, done: seq<Token>)
    requires ResumesItems(b, all, start, done)
    ensures ParseValue(SkipWs(start)).NoParse? ==> ParseItems(all).NoParse?
    ensures ParseValue(SkipWs(start)).Parsed? && !Starts(ItemRest(start), ',') ==>
              && ParseItems(all).Parsed? == Starts(ItemRest(start), ']')
              && (Starts(ItemRest(start), ']') ==>
                    && ParseItems(all).rest == ItemRest(start)[1..]
                    && ItemsTokens(b, ParseItems(all).tree) == done + (ItemTokens(b, start) + [PunctToken("]")]))
  {
  }

  ghost predicate ResumesItems(b: Browser, all: string, start: string, done: seq<Token>) {
    && ParseItems(all).Parsed? == ParseItems(start).Parsed?
    && (ParseItems(all).Parsed? ==>
          && ParseItems(all).rest == ParseItems(start).rest
          && ItemsTokens(b, ParseItems(all).tree) == done + ItemsTokens(b, ParseItems(start).tree))
  }

  /** The tokens of one list element and the whitespace around it. */
  function ItemTokens(b: Browser, s: string): seq<Token>
    requires ParseValue(SkipWs(s)).Parsed?
  {
    var value := ParseValue(SkipWs(s));
    WsTokens(Ws(s)) + Tokens(b, value.tree, false) + WsTokens(Ws(value.rest))
  }

  function ItemRest(s: string): string
    requires ParseValue(SkipWs(s)).Parsed?
  {
    SkipWs(ParseValue(SkipWs(s)).rest)
  }

  lemma ItemsResume(b: Browser, all: string, start: string, done: seq<Token>)
    requires ResumesItems(b, all, start, done) && ParseValue(SkipWs(start)).Parsed?
    requires Starts(ItemRest(start), ',')
    ensures ResumesItems(b, all, ItemRest(start)[1..],
                         done + (ItemTokens(b, start) + [PunctToken(",")]))
  {
    var item := ItemTokens(b, start);
    var more := ParseItems(ItemRest(start)[1..]);
    if more.Parsed? {
      var rest := ItemsTokens(b, more.tree);
      Assoc(item, [PunctToken(",")], rest);
      Assoc(done, item + [PunctToken(",")], rest);
    }
  }

  /** The cursor's view: whitespace from `start` to `pos`, and none at `pos`. */
  lemma WsAt(src: string, start: nat, pos: nat)
    requires start <= pos <= |src| && (forall i | start <= i < pos :: IsWs(src[i]))
    requires pos < |src| ==> !IsWs(src[pos])
    ensures Ws(src[start..]) == src[start..pos] && SkipWs(src[start..]) == src[pos..]
  {
    assert src[start..] == src[start..pos] + src[pos..];
    WsComplete(src[start..pos], src[pos..]);
  }

  /** A literal from `start` whose closing quote is at `p`. */
  lemma LiteralAt(src: string, start: nat, p: nat)
    requires start < p < |src| && src[start] == '"' && BodyEnd(src[start + 1..]) == Some(p - start - 1)
    ensures ParseLiteral(src[start..]) == Parsed(src[start..p + 1], src[p + 1..])
  {
    assert src[start..][1..] == src[start + 1..];
    assert src[start..][..p + 1 - start] == src[start..p + 1];
    assert src[start..][p + 1 - start..] == src[p + 1..];
  }

  lemma Unclosed(src: string, start: nat)
    requires start < |src| && BodyEnd(src[start + 1..]).None?
    ensures ParseLiteral(src[start..]).NoParse?
  {
    assert src[start..][1..] == src[start + 1..];
  }

  function Later(r: Option<nat>, d: nat): Option<nat> {
    match r case None => None case Some(n) => Some(n + d)
  }

  /** The end of the string body that begins at p, which a trailing backslash may put past the end of the line. */
  function BodyFrom(src: string, p: nat): Option<nat> {
    if p <= |src| then BodyEnd(src[p..]) else None
  }

  lemma BodyStep(src: string, p: nat)
    ensures BodyFrom(src, p) ==
              if p >= |src| then None
              else if src[p] == '"' then Some(0)
              else var width := if src[p] == '\\' then 2 else 1; Later(BodyFrom(src, p + width), width)
  {
    if p < |src| {
      var width := if src[p] == '\\' then 2 else 1;
      if p + width <= |src| {
        assert src[p..][width..] == src[p + width..];
      }
    }
  }

  /** Looking for the end of the body from a comes to looking for it from p. */
  ghost predicate SameEnd(src: string, a: nat, p: nat) {
    a <= p && BodyFrom(src, a) == Later(BodyFrom(src, p), p - a)
  }

  lemma SameEndStep(src: string, a: nat, p: nat)
    requires SameEnd(src, a, p) && p < |src| && src[p] != '"'
    ensures SameEnd(src, a, p + if src[p] == '\\' then 2 else 1)
  {
    BodyStep(src, p);
  }

  lemma EndFound(src: string, a: nat, p: nat)
    requires SameEnd(src, a, p) && a <= |src| && (p < |src| ==> src[p] == '"')
    ensures BodyEnd(src[a..]) == if p < |src| then Some(p - a) else None
  {
    BodyStep(src, p);
  }

  lemma NumberCut(s: string)
    requires ParseNumber(s).Parsed?
    ensures |ParseNumber(s).tree| <= |s| && ParseNumber(s).rest == s[|ParseNumber(s).tree|..]
  {
  }

  lemma SkipAhead(src: string, pos: nat, n: nat)
    requires pos <= |src| && n <= |src[pos..]|
    ensures src[pos..][n..] == src[pos + n..]
  {
  }

  lemma AppendThree(a: seq<Token>, b: seq<Token>, c: seq<Token>, d: seq<Token>)
    ensures ((a + b) + c) + d == a + (b + (c + d))
  {
  }

  const NO_MEMBER := Member("", "", "", "", Word("null"), "")

  lemma GlueItem(base: seq<Token>, a: seq<Token>, b: seq<Token>, c: seq<Token>)
    ensures ((base + a) + b) + c == base + ((a + b) + c)
  {
  }

  class Scanner {
    const browser: Browser
    const src: string
    var pos: nat
    var tokens: seq<Token>

    ghost predicate Valid()
      reads this
    {
      pos <= |src|
    }

    ghost function Rest(): string
      requires Valid()
      reads this
    {
      src[pos..]
    }

    constructor (browser: Browser, src: string, tokens: seq<Token>)
      ensures this.browser == browser && this.src == src && Valid()
      ensures Rest() == src && this.tokens == tokens && pos == 0
    {
      this.browser, this.src, this.pos, this.tokens := browser, src, 0, tokens;
    }

    method Whitespace()
      requires Valid()
      modifies this
      ensures Valid() && old(pos) <= pos
      ensures Rest() == SkipWs(old(Rest())) && tokens == old(tokens) + WsTokens(Ws(old(Rest())))
    {
      var start := pos;
      while pos < |src| && IsWs(src[pos])
        invariant start <= pos <= |src| && tokens == old(tokens)
        invariant forall i | start <= i < pos :: IsWs(src[i])
      {
        pos := pos + 1;
      }
      WsAt(src, start, pos);
      if pos > start {
        tokens := tokens + [PunctToken(src[start..pos])];
      }
    }

    method Punct(ch: char) returns (ok: bool)
      requires Valid()
      modifies this
      ensures Valid() && ok == Starts(old(Rest()), ch)
      ensures if ok then pos == old(pos) + 1 && Rest() == old(Rest())[1..] && tokens == old(tokens) + [PunctToken([ch])]
              else pos == old(pos) && tokens == old(tokens)
    {
      if pos >= |src| || src[pos] != ch {
        return false;
      }
      tokens := tokens + [PunctToken([ch])];
      pos := pos + 1;
      return true;
    }

    method StringLiteral() returns (raw: Option<string>)
      requires Valid()
      modifies this
      ensures Valid() && tokens == old(tokens)
      ensures raw.Some? == ParseLiteral(old(Rest())).Parsed?
      ensures if raw.Some?
              then pos > old(pos) && raw.value == ParseLiteral(old(Rest())).tree &&
                  Rest() == ParseLiteral(old(Rest())).rest
              else pos == old(pos)
    {
      if pos >= |src| || src[pos] != '"' {
        return None;
      }
      var p := ClosingQuote();
      if p.None? {
        Unclosed(src, pos);
        return None;
      }
      LiteralAt(src, pos, p.value);
      raw := Some(src[pos..p.value + 1]);
      pos := p.value + 1;
    }

    method ClosingQuote() returns (r: Option<nat>)
      requires Valid() && pos < |src|
      ensures r.Some? ==> pos < r.value < |src|
      ensures BodyEnd(src[pos + 1..]) == if r.Some? then Some(r.value - pos - 1) else None
    {
      var p := pos + 1;
      while true
        invariant pos + 1 <= p && SameEnd(src, pos + 1, p)
        decreases |src| - p
      {
        if p >= |src| {
          EndFound(src, pos + 1, p);
          return None;
        }
        var c := src[p];
        if c == '\\' {
          SameEndStep(src, pos + 1, p);
          p := p + 2;
          continue;
        }
        if c == '"' {
          EndFound(src, pos + 1, p);
          return Some(p);
        }
        SameEndStep(src, pos + 1, p);
        p := p + 1;
      }
    }

    method Value(isLevel: bool) returns (ok: bool, ghost t: Json)
      requires Valid()
      modifies this
      ensures Valid() && old(pos) <= pos
      ensures ParseValue(SkipWs(old(Rest()))) == if ok then Parsed(t, Rest()) else NoParse
      ensures ok ==> tokens == old(tokens) + WsTokens(Ws(old(Rest()))) + Tokens(browser, t, isLevel)
      decreases |src| - pos, 1
    {
      t := Word("null");
      Whitespace();
      if pos >= |src| {
        return false, t;
      }
      var c := src[pos];
      assert c == Rest()[0];
      if c == '{' {
        ok, t := Object();
      } else if c == '[' {
        ok, t := Array();
      } else if c == '"' {
        ok, t := StringValue(isLevel);
      } else {
        ok, t := Scalar(isLevel);
      }
    }

    method Scalar(isLevel: bool) returns (ok: bool, ghost t: Json)
      requires Valid()
      modifies this
      ensures Valid() && old(pos) <= pos
      ensures ParseScalar(old(Rest())) == if ok then Parsed(t, Rest()) else NoParse
      ensures ok ==> tokens == old(tokens) + Tokens(browser, t, isLevel)
    {
      ok, t := Keyword();
      if !ok {
        ok, t := NumberLiteral(isLevel);
      }
    }

    method StringValue(isLevel: bool) returns (ok: bool, ghost t: Json)
      requires Valid()
      modifies this
      ensures Valid() && old(pos) <= pos
      ensures ParseString(old(Rest())) == if ok then Parsed(t, Rest()) else NoParse
      ensures ok ==> tokens == old(tokens) + Tokens(browser, t, isLevel)
    {
      var raw := StringLiteral();
      if raw.None? {
        return false, Word("null");
      }
      var severity := if isLevel then SeverityOfName(browser, Inner(raw.value)) else None;
      tokens := tokens + [Leveled(StringTok, raw.value, severity)];
      return true, Str(raw.value);
    }

    method Keyword() returns (ok: bool, ghost t: Json)
      requires Valid()
      modifies this
      ensures Valid() && old(pos) <= pos
      ensures ok == ParseWord(old(Rest())).Parsed?
      ensures if ok
              then t == Word(ParseWord(old(Rest())).tree) && Rest() == ParseWord(old(Rest())).rest &&
                  tokens == old(tokens) + [Token(KeywordTok, t.word, None)]
              else pos == old(pos) && tokens == old(tokens)
    {
      for i := 0 to 3
        invariant Valid() && pos == old(pos) && tokens == old(tokens)
        invariant forall k | 0 <= k < i :: !(KEYWORDS[k] <= Rest())
      {
        if KEYWORDS[i] <= src[pos..] {
          WordFound(Rest(), i);
          tokens := tokens + [Token(KeywordTok, KEYWORDS[i], None)];
          pos := pos + |KEYWORDS[i]|;
          return true, Word(KEYWORDS[i]);
        }
      }
      NoWordFound(Rest());
      return false, Word("null");
    }

    method NumberLiteral(isLevel: bool) returns (ok: bool, ghost t: Json)
      requires Valid()
      modifies this
      ensures Valid() && old(pos) <= pos
      ensures ok == ParseNumber(old(Rest())).Parsed?
      ensures ok ==> t == Num(ParseNumber(old(Rest())).tree) && Rest() == ParseNumber(old(Rest())).rest
      ensures ok ==> tokens == old(tokens) + Tokens(browser, t, isLevel)
    {
      var matched := ParseNumber(src[pos..]);
      if matched.NoParse? {
        return false, Word("null");
      }
      var text := matched.tree;
      NumberCut(src[pos..]);
      SkipAhead(src, pos, |text|);
      var severity := if isLevel then SeverityOfNumber(browser, text) else None;
      tokens := tokens + [Leveled(NumberTok, text, severity)];
      pos := pos + |text|;
      return true, Num(text);
    }

    /** An opening bracket, whitespace, and the closing bracket if it follows at once. */
    method Open(open: char, close: char) returns (ok: bool, empty: bool)
      requires Valid()
      modifies this
      ensures Valid() && old(pos) <= pos && ok == Starts(old(Rest()), open)
      ensures ok ==>
                var all := old(src[pos + 1..]);
                && old(pos) < pos && old(Rest())[1..] == all && empty == Starts(SkipWs(all), close)
                && (if empty
                    then Rest() == SkipWs(all)[1..] &&
                        tokens == old(tokens) + ([PunctToken([open])] + WsTokens(Ws(all)) + [PunctToken([close])])
                    else Rest() == SkipWs(all) && tokens == old(tokens) + [PunctToken([open])] + WsTokens(Ws(all)))
    {
      ok := Punct(open);
      if !ok {
        return false, false;
      }
      ghost var all := Rest();
      Whitespace();
      empty := Punct(close);
      AppendThree(old(tokens), [PunctToken([open])], WsTokens(Ws(all)), [PunctToken([close])]);
      Assoc([PunctToken([open])], WsTokens(Ws(all)), [PunctToken([close])]);
    }

    method Object() returns (ok: bool, ghost t: Json)
      requires Valid()
      modifies this
      ensures Valid() && old(pos) <= pos
      ensures ParseObject(old(Rest())) == if ok then Parsed(t, Rest()) else NoParse
      ensures ok ==> tokens == old(tokens) + Tokens(browser, t, false)
      decreases |src| - pos, 0
    {
      t := Word("null");
      ghost var base, all := tokens + [PunctToken("{")], if pos < |src| then src[pos + 1..] else "";
      var empty;
      ok, empty := Open('{', '}');
      if !ok {
        return false, t;
      }
      assert Starts(old(Rest()), '{') && old(Rest())[1..] == all;
      if empty {
        return true, EmptyObject(Ws(all));
      }
      ghost var ms;
      ok, ms := MemberLoop(all, base);
      if ok {
        t := Json.Object(ms);
        Assoc(old(tokens), [PunctToken("{")], MembersTokens(browser, ms));
      }
    }

    /** The loop of the source's object(), entered with the whitespace after "{" already consumed. */
    method MemberLoop(ghost all: string, ghost base: seq<Token>) returns (ok: bool, ghost ms: Members)
      requires Valid() && Rest() == SkipWs(all) && tokens == base + WsTokens(Ws(all))
      modifies this
      ensures Valid() && old(pos) <= pos
      ensures ParseMembers(all) == if ok then Parsed(ms, Rest()) else NoParse
      ensures ok ==> tokens == base + MembersTokens(browser, ms)
      decreases |src| - pos, 3
    {
      ghost var start, skipped, done := all, true, [];
      ms := LastMember(NO_MEMBER);
      while true
        invariant Valid() && old(pos) <= pos
        invariant Rest() == if skipped then SkipWs(start) else start
        invariant tokens == base + done + if skipped then WsTokens(Ws(start)) else []
        invariant ResumesMembers(browser, all, start, done)
        decreases |src| - pos
      {
        ghost var m;
        ok, m := OneMember(start, skipped, base + done);
        MembersEnd(browser, all, start, done);
        if !ok {
          return false, ms;
        }
        ghost var read, rest := MemberTokens(browser, m), Rest();
        var more;
        more, ok := Separator('}');
        AppendThree(base, done, read, [PunctToken(if more then "," else "}")]);
        if !more {
          return ok, if ok then ParseMembers(all).tree else ms;
        }
        MembersResume(browser, all, start, done);
        start, skipped, done := rest[1..], false, done + (read + [PunctToken(",")]);
      }
    }

    /** A comma, or else the closing bracket. */
    method Separator(close: char) returns (more: bool, ok: bool)
      requires Valid()
      modifies this
      ensures Valid() && old(pos) <= pos
      ensures more == Starts(old(Rest()), ',') && (!more ==> ok == Starts(old(Rest()), close))
      ensures more || ok ==>
                && old(pos) < pos && Rest() == old(Rest())[1..]
                && tokens == old(tokens) + [PunctToken(if more then "," else [close])]
    {
      more := Punct(',');
      if more {
        return true, true;
      }
      ok := Punct(close);
    }

    /** One turn of that loop. */
    method OneMember(ghost start: string, ghost skipped: bool, ghost base: seq<Token>)
      returns (ok: bool, ghost m: Member)
      requires Valid()
      requires Rest() == if skipped then SkipWs(start) else start
      requires tokens == base + if skipped then WsTokens(Ws(start)) else []
      modifies this
      ensures Valid() && old(pos) <= pos && (ok ==> old(pos) < pos)
      ensures ParseMember(start) == if ok then Parsed(m, Rest()) else NoParse
      ensures ok ==> tokens == base + MemberTokens(browser, m)
      decreases |src| - pos, 2
    {
      m := NO_MEMBER;
      var key := Key(start, skipped, base);
      if key.None? {
        return false, m;
      }
      ghost var s1 := Rest();
      ghost var t;
      ok, t := Value(IsLevelKey(browser, key.value));
      if !ok {
        return false, m;
      }
      ghost var s2 := Rest();
      Whitespace();
      m := Member.Member(Ws(start), key.value, Ws(ParseLiteral(SkipWs(start)).rest), Ws(s1), t, Ws(s2));
      assert ParseMember(start) == Parsed(m, Rest());
      GlueMember(browser, base, m);
      return true, m;
    }

    /** The key, its colon, and the whitespace around them. */
    method Key(ghost start: string, ghost skipped: bool, ghost base: seq<Token>) returns (key: Option<string>)
      requires Valid()
      requires Rest() == if skipped then SkipWs(start) else start
      requires tokens == base + if skipped then WsTokens(Ws(start)) else []
      modifies this
      ensures Valid() && old(pos) <= pos && (key.Some? ==> old(pos) < pos)
      ensures var k := ParseLiteral(SkipWs(start));
              && key.Some? == (k.Parsed? && Starts(SkipWs(k.rest), ':'))
              && (key.Some? ==>
                    && key.value == k.tree && Rest() == SkipWs(k.rest)[1..]
                    && tokens == base + WsTokens(Ws(start)) + [Token(KeyTok, k.tree, None)] +
                                 WsTokens(Ws(k.rest)) + [PunctToken(":")])
    {
      Leading(start, skipped, base);
      ghost var k := ParseLiteral(SkipWs(start));
      key := StringLiteral();
      if key.None? {
        return None;
      }
      tokens := tokens + [Token(KeyTok, key.value, None)];
      assert Rest() == k.rest && tokens == base + WsTokens(Ws(start)) + [Token(KeyTok, k.tree, None)];
      Whitespace();
      assert Rest() == SkipWs(k.rest);
      var ok := Punct(':');
      if !ok {
        return None;
      }
    }

    /** The whitespace before a key, whether or not it was consumed already. */
    method Leading(ghost start: string, ghost skipped: bool, ghost base: seq<Token>)
      requires Valid()
      requires Rest() == if skipped then SkipWs(start) else start
      requires tokens == base + if skipped then WsTokens(Ws(start)) else []
      modifies this
      ensures Valid() && old(pos) <= pos
      ensures Rest() == SkipWs(start) && tokens == base + WsTokens(Ws(start))
    {
      ghost var before := tokens;
      Whitespace();
      if skipped {
        SkipTwice(start);
        assert tokens == before + [];
      }
    }

    method Array() returns (ok: bool, ghost t: Json)
      requires Valid()
      modifies this
      ensures Valid() && old(pos) <= pos
      ensures ParseArray(old(Rest())) == if ok then Parsed(t, Rest()) else NoParse
      ensures ok ==> tokens == old(tokens) + Tokens(browser, t, false)
      decreases |src| - pos, 0
    {
      t := Word("null");
      ghost var base, all := tokens + [PunctToken("[")], if pos < |src| then src[pos + 1..] else "";
      var empty;
      ok, empty := Open('[', ']');
      if !ok {
        return false, t;
      }
      if empty {
        return true, EmptyArray(Ws(all));
      }
      ghost var items;
      ok, items := ItemLoop(all, base);
      if ok {
        t := Json.Array(items);
        Assoc(old(tokens), [PunctToken("[")], ItemsTokens(browser, items));
      }
    }

    /** The loop of the source's array(), entered with the whitespace after "[" already consumed. */
    method ItemLoop(ghost all: string, ghost base: seq<Token>) returns (ok: bool, ghost items: Items)
      requires Valid() && Rest() == SkipWs(all) && tokens == base + WsTokens(Ws(all))
      modifies this
      ensures Valid() && old(pos) <= pos
      ensures ParseItems(all) == if ok then Parsed(items, Rest()) else NoParse
      ensures ok ==> tokens == base + ItemsTokens(browser, items)
      decreases |src| - pos, 3
    {
      ghost var start, skipped, done := all, true, [];
      items := LastItem("", Word("null"), "");
      while true
        invariant Valid() && old(pos) <= pos
        invariant Rest() == if skipped then SkipWs(start) else start
        invariant tokens == base + done + if skipped then WsTokens(Ws(start)) else []
        invariant ResumesItems(browser, all, start, done)
        decreases |src| - pos
      {
        ok := OneItem(start, skipped, base + done);
        ItemsEnd(browser, all, start, done);
        if !ok {
          return false, items;
        }
        ghost var read := ItemTokens(browser, start);
        var more;
        more, ok := Separator(']');
        AppendThree(base, done, read, [PunctToken(if more then "," else "]")]);
        if !more {
          return ok, if ok then ParseItems(all).tree else items;
        }
        ItemsResume(browser, all, start, done);
        start, skipped, done := ItemRest(start)[1..], false, done + (read + [PunctToken(",")]);
      }
    }

    method OneItem(ghost start: string, ghost skipped: bool, ghost base: seq<Token>) returns (ok: bool)
      requires Valid()
      requires Rest() == if skipped then SkipWs(start) else start
      requires tokens == base + if skipped then WsTokens(Ws(start)) else []
      modifies this
      ensures Valid() && old(pos) <= pos && (ok ==> old(pos) < pos)
      ensures ok == ParseValue(SkipWs(start)).Parsed?
      ensures ok ==> Rest() == ItemRest(start) && tokens == base + ItemTokens(browser, start)
      decreases |src| - pos, 2
    {
      ghost var t, before := Word("null"), tokens;
      ok, t := Value(false);
      if skipped {
        SkipTwice(start);
        assert before + [] == before;
      }
      if !ok {
        return false;
      }
      assert tokens == base + WsTokens(Ws(start)) + Tokens(browser, t, false);
      ghost var s1 := Rest();
      Whitespace();
      assert Rest() == ItemRest(start);
      GlueItem(base, WsTokens(Ws(start)), Tokens(browser, t, false), WsTokens(Ws(s1)));
      return true;
    }
  }

  lemma WholeWs(s: string)
    requires SkipWs(s) == ""
    ensures Ws(s) == s
  {
    WsSplit(s);
  }

  /** tokenizeJsonLine. */
  method Tokenize(browser: Browser, line: string) returns (r: Option<seq<Token>>)
    ensures r == TokenizeOf(browser, line)
  {
    var n := StampEnd(line);
    var src := line[n..];
    if !Starts(src, '{') {
      return None;
    }
    var prefix := if n == 0 then [] else [Token(TextTok, line[..n], None)];
    var scanner := new Scanner(browser, src, prefix);
    var ok, t := scanner.Object();
    if !ok {
      return None;
    }
    ghost var rest := scanner.Rest();
    scanner.Whitespace();
    if scanner.pos != |src| {
      return None;
    }
    WholeWs(rest);
    return Some(scanner.tokens);
  }
}
