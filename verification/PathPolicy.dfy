/**
 The path policy of the gateway (internal/gateway/policy.go): which escaped URL paths are forwarded.

 A path is a string of bytes, each as the character of that code. Lower-casing is ASCII only: the few other
 characters that lower to ASCII ones give a k, an i or an a with a mark, which none of the words tested for contains.
 */
module PathPolicy {
  import opened Wrappers

  import opened JsText
  import opened TextSplit

  datatype Verdict = Allowed | BadPath | ForbiddenPath

  const BLOCKED := {"exec", "attach", "portforward", "proxy"}
  const ROOTS := {"version", "api", "apis", "openapi"}

  function LowerChar(c: char): char {
    if 'A' <= c <= 'Z' then (c as int + 32) as char else c
  }

  function Lower(s: string): (r: string)
    ensures |r| == |s| && forall i | 0 <= i < |s| :: r[i] == LowerChar(s[i])
  {
    seq(|s|, i requires 0 <= i < |s| => LowerChar(s[i]))
  }

  predicate At(s: string, sub: string, i: nat) {
    i + |sub| <= |s| && s[i..i + |sub|] == sub
  }

  predicate Contains(s: string, sub: string) {
    exists i: nat | i <= |s| :: At(s, sub, i)
  }

  predicate IsHex(c: char) {
    '0' <= c <= '9' || 'a' <= c <= 'f' || 'A' <= c <= 'F'
  }

  function HexValue(c: char): (v: int)
    requires IsHex(c)
    ensures 0 <= v < 16
  {
    if '0' <= c <= '9' then c as int - '0' as int
    else if 'a' <= c <= 'f' then c as int - 'a' as int + 10
    else c as int - 'A' as int + 10
  }

  function Byte(h: char, l: char): char
    requires IsHex(h) && IsHex(l)
  {
    (16 * HexValue(h) + HexValue(l)) as char
  }

  predicate EscapeAt(s: string) {
    |s| >= 3 && s[0] == '%' && IsHex(s[1]) && IsHex(s[2])
  }

  /** url.PathUnescape. */
  function Unescape(s: string): Option<string> {
    if s == "" then Some("")
    else if s[0] == '%' then
      if !EscapeAt(s) then None
      else
        match Unescape(s[3..])
        case None => None
        case Some(rest) => Some([Byte(s[1], s[2])] + rest)
    else
      match Unescape(s[1..])
      case None => None
      case Some(rest) => Some([s[0]] + rest)
  }

  predicate Structural(c: char) {
    c == '/' || c == '\\' || c == '%'
  }

  /** What the loop says of one segment. */
  function CheckSegment(raw: string): Verdict {
    if raw == "" || raw == "." || raw == ".." then BadPath
    else
      match Unescape(raw)
      case None => BadPath
      case Some(seg) =>
        if seg == "." || seg == ".." then BadPath
        else if exists i | 0 <= i < |seg| :: Structural(seg[i]) then BadPath
        else if Lower(seg) in BLOCKED then ForbiddenPath
        else Allowed
  }

  function CheckSegments(segments: seq<string>): Verdict {
    if segments == [] then Allowed
    else if CheckSegment(segments[0]) != Allowed then CheckSegment(segments[0])
    else CheckSegments(segments[1..])
  }

  function CheckPath(escaped: string): Verdict {
    if escaped == "" || escaped[0] != '/' then BadPath
    else
      var lower := Lower(escaped);
      if Contains(lower, "%2f") || Contains(lower, "%5c") then BadPath
      else
        var segments := Parts(escaped[1..], '/');
        if CheckSegments(segments) != Allowed then CheckSegments(segments)
        else if segments[0] !in ROOTS then ForbiddenPath
        else Allowed
  }

  // ---------------------------------------------------------------- what is accepted

  /** A decoded segment that can mean nothing but itself. */
  ghost predicate Clean(seg: string) {
    && seg != "" && seg != "." && seg != ".."
    && '/' !in seg && '\\' !in seg && '%' !in seg
    && Lower(seg) !in {"exec", "attach", "portforward", "proxy"}
  }

  lemma SegmentAllowed(raw: string)
    ensures CheckSegment(raw) == Allowed <==>
              Unescape(raw).Some? && Clean(Unescape(raw).value)
  {
    NoEscapesLeft(".");
    NoEscapesLeft("..");
  }

  /** A decoded segment that is a blocked word, in whatever case. */
  ghost predicate Blocked(seg: string) {
    && seg != "." && seg != ".."
    && '/' !in seg && '\\' !in seg && '%' !in seg
    && Lower(seg) in {"exec", "attach", "portforward", "proxy"}
  }

  lemma SegmentForbidden(raw: string)
    ensures CheckSegment(raw) == ForbiddenPath <==>
              Unescape(raw).Some? && Blocked(Unescape(raw).value)
  {
    NoEscapesLeft(".");
    NoEscapesLeft("..");
    assert forall word | word in BLOCKED :: word != "";
  }

  lemma {:induction false} SegmentsAllowed(segments: seq<string>)
    ensures CheckSegments(segments) == Allowed <==>
        forall i | 0 <= i < |segments| :: CheckSegment(segments[i]) == Allowed
  {
    if segments != [] {
      SegmentsAllowed(segments[1..]);
      assert segments == [segments[0]] + segments[1..];
    }
  }

  // ---------------------------------------------------------------- encoded separators

  lemma PutThree(text: string)
    requires |text| >= 3 && text[0] != '/' && text[1] != '/' && text[2] != '/'
    ensures var rest := Parts(text[3..], '/'); Parts(text, '/') == [[text[0], text[1], text[2]] + rest[0]] + rest[1..]
  {
    assert text[1..][1..] == text[2..] && text[2..][1..] == text[3..];
    assert Parts(text[1..], '/') == Put(text[1], Parts(text[2..], '/'), '/');
    assert Parts(text[2..], '/') == Put(text[2], Parts(text[3..], '/'), '/');
    ThreePut(text[0], text[1], text[2], Parts(text[3..], '/'));
  }

  lemma ThreePut(a: char, b: char, c: char, rest: seq<string>)
    requires |rest| >= 1 && a != '/' && b != '/' && c != '/'
    ensures Put(a, Put(b, Put(c, rest, '/'), '/'), '/') == [[a, b, c] + rest[0]] + rest[1..]
  {
    assert [a] + ([b] + ([c] + rest[0])) == [a, b, c] + rest[0];
  }

  predicate ThreeAt(s: string, j: nat, a: char, b: char, c: char) {
    j + 3 <= |s| && s[j] == a && s[j + 1] == b && s[j + 2] == c
  }

  lemma ThreeMove(x: char, rest: seq<string>, k: nat, j: nat, a: char, b: char, c: char)
    requires k < |rest| && ThreeAt(rest[k], j, a, b, c)
    ensures var k1 := if x == '/' then k + 1 else k;
            var j1 := if x != '/' && k == 0 then j + 1 else j;
            k1 < |Put(x, rest, '/')| && ThreeAt(Put(x, rest, '/')[k1], j1, a, b, c)
  {
    if x != '/' && k == 0 {
      assert Put(x, rest, '/')[0] == [x] + rest[0];
    }
  }

  /** Three characters of the text that are no separator lie in one part. */
  lemma {:induction false} FindInPart(text: string, i: nat) returns (k: nat, j: nat)
    requires i + 3 <= |text| && text[i] != '/' && text[i + 1] != '/' && text[i + 2] != '/'
    ensures k < |Parts(text, '/')| && ThreeAt(Parts(text, '/')[k], j, text[i], text[i + 1], text[i + 2])
  {
    if i == 0 {
      PutThree(text);
      k, j := 0, 0;
    } else {
      k, j := FindInPart(text[1..], i - 1);
      ThreeMove(text[0], Parts(text[1..], '/'), k, j, text[i], text[i + 1], text[i + 2]);
      k, j := if text[0] == '/' then k + 1 else k, if text[0] != '/' && k == 0 then j + 1 else j;
    }
  }

  /** Where a text that unescapes has a percent sign, its value has the character that stands for. */
  lemma {:induction false} EscapeShows(s: string, j: nat) returns (i: nat)
    requires j < |s| && s[j] == '%' && Unescape(s).Some?
    ensures j + 2 < |s| && IsHex(s[j + 1]) && IsHex(s[j + 2])
    ensures i < |Unescape(s).value| && Unescape(s).value[i] == Byte(s[j + 1], s[j + 2])
    decreases |s|
  {
    if j == 0 {
      i := 0;
    } else if s[0] == '%' {
      i := EscapeShows(s[3..], j - 3);
      i := i + 1;
    } else {
      i := EscapeShows(s[1..], j - 1);
      i := i + 1;
    }
  }

  /** The search for encoded slashes up front never decides what is accepted: the segments catch them all. */
  lemma EncodedSeparatorsAreCaught(escaped: string)
    requires escaped != "" && escaped[0] == '/' && CheckSegments(Parts(escaped[1..], '/')) == Allowed
    ensures !Contains(Lower(escaped), "%2f") && !Contains(Lower(escaped), "%5c")
  {
    var lower := Lower(escaped);
    forall i: nat | i <= |lower| ensures !At(lower, "%2f", i) && !At(lower, "%5c", i) {
      if At(lower, "%2f", i) {
        assert lower[i..i + 3][0] == '%' && lower[i..i + 3][1] == '2' && lower[i..i + 3][2] == 'f';
        EncodedSeparator(escaped, i);
      } else if At(lower, "%5c", i) {
        assert lower[i..i + 3][0] == '%' && lower[i..i + 3][1] == '5' && lower[i..i + 3][2] == 'c';
        EncodedSeparator(escaped, i);
      }
    }
  }

  lemma EncodedSeparator(escaped: string, i: nat)
    requires escaped != "" && escaped[0] == '/' && i + 3 <= |escaped| && escaped[i] == '%'
    requires
      || (escaped[i + 1] == '2' && LowerChar(escaped[i + 2]) == 'f')
      || (escaped[i + 1] == '5' && LowerChar(escaped[i + 2]) == 'c')
    ensures CheckSegments(Parts(escaped[1..], '/')) != Allowed
  {
    var text := escaped[1..];
    var parts := Parts(text, '/');
    var k, j := FindInPart(text, i - 1);
    SegmentsAllowed(parts);
    if CheckSegment(parts[k]) == Allowed {
      var at := EscapeShows(parts[k], j);
      assert Structural(Unescape(parts[k]).value[at]);
    }
  }

  // ---------------------------------------------------------------- decoding the whole path

  ghost predicate AllUnescape(parts: seq<string>) {
    forall i | 0 <= i < |parts| :: Unescape(parts[i]).Some? && '/' !in Unescape(parts[i]).value
  }

  function Unescaped(parts: seq<string>): (r: seq<string>)
    requires forall i | 0 <= i < |parts| :: Unescape(parts[i]).Some?
    ensures |r| == |parts| && forall i | 0 <= i < |parts| :: r[i] == Unescape(parts[i]).value
  {
    seq(|parts|, i requires 0 <= i < |parts| => Unescape(parts[i]).value)
  }

  /** The first part is how the text begins. */
  lemma {:induction false} FirstPart(text: string)
    ensures |Parts(text, '/')[0]| <= |text| && Parts(text, '/')[0] == text[..|Parts(text, '/')[0]|]
  {
    if text != "" && text[0] != '/' {
      FirstPart(text[1..]);
    }
  }

  lemma PutUnescaped(c: char, raw: string, parts: seq<string>, b: char)
    requires |parts| >= 1 && AllUnescape(parts) && b != '/' && c != '/'
    requires Unescape(raw + parts[0]) == Some([b] + Unescape(parts[0]).value)
    ensures AllUnescape([raw + parts[0]] + parts[1..])
    ensures Unescaped([raw + parts[0]] + parts[1..]) == Put(b, Unescaped(parts), '/')
  {
  }

  /** Decoding a whole path and then splitting it gives what splitting it and then decoding gives. */
  lemma {:induction false} DecodingCommutes(text: string)
    requires AllUnescape(Parts(text, '/'))
    ensures Unescape(text).Some? && Parts(Unescape(text).value, '/') == Unescaped(Parts(text, '/'))
    decreases |text|
  {
    if text == "" {
      assert Unescaped([""]) == [""];
    } else {
      var parts := Parts(text, '/');
      var c := text[0];
      if c == '/' {
        var rest := Parts(text[1..], '/');
        assert parts == [""] + rest && forall i | 0 <= i < |rest| :: rest[i] == parts[i + 1];
        DecodingCommutes(text[1..]);
        assert Unescape("") == Some("");
        assert Unescaped(parts) == [""] + Unescaped(rest);
        PartsCons('/', Unescape(text[1..]).value);
      } else if c == '%' {
        DecodeEscape(text);
      } else {
        var rest := Parts(text[1..], '/');
        SameButFirst(parts, rest, [c]);
        UnescapeCons(c, rest[0]);
        assert AllUnescape(rest);
        DecodingCommutes(text[1..]);
        PutUnescaped(c, [c], rest, c);
        PartsCons(c, Unescape(text[1..]).value);
      }
    }
  }

  lemma SameButFirst(parts: seq<string>, rest: seq<string>, raw: string)
    requires |rest| >= 1 && parts == [raw + rest[0]] + rest[1..]
    ensures |parts| == |rest| && parts[0] == raw + rest[0] && forall i | 1 <= i < |rest| :: rest[i] == parts[i]
  {
  }

  lemma PartsCons(c: char, t: string)
    ensures Parts([c] + t, '/') == Put(c, Parts(t, '/'), '/')
  {
    assert ([c] + t)[1..] == t;
  }

  lemma UnescapeCons(c: char, t: string)
    requires c != '%'
    ensures Unescape([c] + t) == match Unescape(t) case None => None case Some(rest) => Some([c] + rest)
  {
    assert ([c] + t)[1..] == t;
  }

  lemma UnescapeEscape(h: char, l: char, t: string)
    requires IsHex(h) && IsHex(l)
    ensures Unescape(['%', h, l] + t) ==
        match Unescape(t) case None => None case Some(rest) => Some([Byte(h, l)] + rest)
  {
    assert (['%', h, l] + t)[3..] == t;
  }

  lemma DecodeEscape(text: string)
    requires text != "" && text[0] == '%' && AllUnescape(Parts(text, '/'))
    ensures Unescape(text).Some? && Parts(Unescape(text).value, '/') == Unescaped(Parts(text, '/'))
    decreases |text|, 0
  {
    var parts := Parts(text, '/');
    FirstPart(text);
    assert EscapeAt(parts[0]) by {
      assert parts[0] != "" && parts[0][0] == '%';
    }
    var h, l, t := text[1], text[2], text[3..];
    var raw := ['%', h, l];
    var rest := Parts(t, '/');
    assert parts == [raw + rest[0]] + rest[1..] by {
      PutThree(text);
    }
    SameButFirst(parts, rest, raw);
    UnescapeEscape(h, l, rest[0]);
    assert AllUnescape(rest) by {
      assert Unescape(parts[0]).value[1..] == Unescape(rest[0]).value;
    }
    assert Byte(h, l) != '/' by {
      assert Unescape(parts[0]).value[0] == Byte(h, l);
    }
    DecodingCommutes(t);
    PutUnescaped('%', raw, rest, Byte(h, l));
    PartsCons(Byte(h, l), Unescape(t).value);
    assert raw + t == text;
    UnescapeEscape(h, l, t);
  }

  lemma {:induction false} NoEscapesLeft(s: string)
    requires '%' !in s
    ensures Unescape(s) == Some(s)
  {
    if s != "" {
      NoEscapesLeft(s[1..]);
      assert [s[0]] + s[1..] == s;
    }
  }

  // ---------------------------------------------------------------- main results

  /** A path under an allowed root, every segment of which decodes to something that means only itself. */
  ghost predicate Acceptable(escaped: string) {
    && escaped != "" && escaped[0] == '/'
    && (forall i | 0 <= i < |Parts(escaped[1..], '/')| ::
          var raw := Parts(escaped[1..], '/')[i]; Unescape(raw).Some? && Clean(Unescape(raw).value))
    && Parts(escaped[1..], '/')[0] in {"version", "api", "apis", "openapi"}
  }

  /** Exactly the acceptable paths are allowed; the search for encoded separators up front changes nothing in that. */
  lemma AllowedExactly(escaped: string)
    ensures CheckPath(escaped) == Allowed <==> Acceptable(escaped)
  {
    if escaped != "" && escaped[0] == '/' {
      var segments := Parts(escaped[1..], '/');
      SegmentsAllowed(segments);
      forall i | 0 <= i < |segments|
        ensures CheckSegment(segments[i]) == Allowed <==>
            Unescape(segments[i]).Some? && Clean(Unescape(segments[i]).value)
      {
        SegmentAllowed(segments[i]);
      }
      if CheckSegments(segments) == Allowed {
        EncodedSeparatorsAreCaught(escaped);
      }
    }
  }

  /** The raw segment decodes to one that is clean, or to one that is blocked. */
  ghost predicate Passes(raw: string) {
    Unescape(raw).Some? && Clean(Unescape(raw).value)
  }

  ghost predicate Stops(raw: string) {
    Unescape(raw).Some? && Blocked(Unescape(raw).value)
  }

  /**
   A path is forbidden, rather than malformed, if and only if it begins with a slash, holds no encoded separator
   anywhere, and either the first of its segments that does not decode to a clean one decodes to a blocked word, or
   they all are clean but its root is not allowed.
   */
  lemma ForbiddenExactly(escaped: string)
    ensures CheckPath(escaped) == ForbiddenPath <==>
              && escaped != "" && escaped[0] == '/'
              && !Contains(Lower(escaped), "%2f") && !Contains(Lower(escaped), "%5c")
              && var segments := Parts(escaped[1..], '/');
                 || (exists i | 0 <= i < |segments| ::
                       Stops(segments[i]) && forall j | 0 <= j < i :: Passes(segments[j]))
                 || ((forall i | 0 <= i < |segments| :: Passes(segments[i])) && segments[0] !in ROOTS)
  {
    if escaped != "" {
      var segments := Parts(escaped[1..], '/');
      SegmentsAllowed(segments);
      SegmentsForbidden(segments);
      forall i | 0 <= i < |segments|
        ensures CheckSegment(segments[i]) == Allowed <==> Passes(segments[i])
        ensures CheckSegment(segments[i]) == ForbiddenPath <==> Stops(segments[i])
      {
        SegmentAllowed(segments[i]);
        SegmentForbidden(segments[i]);
      }
    }
  }

  ghost predicate FirstForbidden(segments: seq<string>) {
    exists i | 0 <= i < |segments| ::
      CheckSegment(segments[i]) == ForbiddenPath && forall j | 0 <= j < i :: CheckSegment(segments[j]) == Allowed
  }

  lemma {:induction false} SegmentsForbidden(segments: seq<string>)
    ensures CheckSegments(segments) == ForbiddenPath <==> FirstForbidden(segments)
  {
    if segments != [] {
      var first, rest := segments[0], segments[1..];
      SegmentsForbidden(rest);
      if FirstForbidden(rest) && CheckSegment(first) == Allowed {
        var i :| 0 <= i < |rest| && CheckSegment(rest[i]) == ForbiddenPath &&
            forall j | 0 <= j < i :: CheckSegment(rest[j]) == Allowed;
        assert CheckSegment(segments[i + 1]) == ForbiddenPath;
        assert forall j | 0 < j < i + 1 :: segments[j] == rest[j - 1];
      }
      if FirstForbidden(segments) {
        var i :| 0 <= i < |segments| && CheckSegment(segments[i]) == ForbiddenPath &&
            forall j | 0 <= j < i :: CheckSegment(segments[j]) == Allowed;
        if i > 0 {
          assert CheckSegment(segments[0]) == Allowed && rest[i - 1] == segments[i];
          assert forall j | 0 <= j < i - 1 :: rest[j] == segments[j + 1];
        }
      }
    }
  }

  /**
   What the upstream can make of an allowed path: decoding it succeeds, as a whole or segment by segment alike; every
   decoded segment is clean and the first one an allowed root; and decoding again changes nothing.
   */
  lemma AllowedIsUnambiguous(escaped: string)
    requires CheckPath(escaped) == Allowed
    ensures Unescape(escaped).Some? && Starts(Unescape(escaped).value, '/')
    ensures var decoded := Unescape(escaped).value;
            var segments := Parts(escaped[1..], '/');
            && AllUnescape(segments)
            && Parts(decoded[1..], '/') == Unescaped(segments)
            && (forall i | 0 <= i < |segments| :: Clean(Parts(decoded[1..], '/')[i]))
            && Parts(decoded[1..], '/')[0] in ROOTS
            && Unescape(decoded) == Some(decoded)
  {
    AllowedExactly(escaped);
    var text := escaped[1..];
    var segments := Parts(text, '/');
    forall i | 0 <= i < |segments| ensures '/' !in Unescape(segments[i]).value {
      assert Clean(Unescape(segments[i]).value);
    }
    DecodingCommutes(text);
    assert escaped == ['/'] + text;
    UnescapeCons('/', text);
    var decoded := Unescape(text).value;
    assert (['/'] + decoded)[1..] == decoded;
    RootsAreLiteral(segments[0]);
    forall i | 0 <= i < |segments| ensures '%' !in Parts(decoded, '/')[i] {
      assert Parts(decoded, '/')[i] == Unescape(segments[i]).value && Clean(Unescape(segments[i]).value);
    }
    NowhereInText(decoded);
    NoEscapesLeft(['/'] + decoded);
  }

  lemma RootsAreLiteral(raw: string)
    requires raw in ROOTS
    ensures Unescape(raw) == Some(raw)
  {
    RootsHoldNoPercent(raw);
    NoEscapesLeft(raw);
  }

  lemma RootsHoldNoPercent(root: string)
    requires root in ROOTS
    ensures '%' !in root
  {
  }

  lemma {:induction false} NowhereInText(text: string)
    requires forall i | 0 <= i < |Parts(text, '/')| :: '%' !in Parts(text, '/')[i]
    ensures '%' !in text
  {
    if text != "" {
      var rest := Parts(text[1..], '/');
      var parts := Parts(text, '/');
      forall i | 0 <= i < |rest| ensures '%' !in rest[i] {
        if text[0] == '/' {
          assert parts[i + 1] == rest[i];
        } else if i == 0 {
          assert parts[0] == [text[0]] + rest[0];
        } else {
          assert parts[i] == rest[i];
        }
      }
      NowhereInText(text[1..]);
      assert text[0] != '/' ==> parts[0][0] == text[0];
      assert text == [text[0]] + text[1..];
    }
  }

  /** So a path that was allowed is allowed again in its decoded form. */
  lemma DecodedIsAllowed(escaped: string)
    requires CheckPath(escaped) == Allowed
    ensures Unescape(escaped).Some? && CheckPath(Unescape(escaped).value) == Allowed
  {
    AllowedIsUnambiguous(escaped);
    CleanIsAllowed(Unescape(escaped).value);
  }

  lemma CleanIsAllowed(decoded: string)
    requires Starts(decoded, '/')
    requires forall i | 0 <= i < |Parts(decoded[1..], '/')| :: Clean(Parts(decoded[1..], '/')[i])
    requires Parts(decoded[1..], '/')[0] in ROOTS
    ensures CheckPath(decoded) == Allowed
  {
    var segments := Parts(decoded[1..], '/');
    forall i | 0 <= i < |segments| ensures Unescape(segments[i]).Some? && Clean(Unescape(segments[i]).value) {
      CleanIsDecoded(segments[i]);
    }
    assert Acceptable(decoded);
    AllowedExactly(decoded);
  }

  lemma CleanIsDecoded(segment: string)
    requires Clean(segment)
    ensures Unescape(segment) == Some(segment)
  {
    NoEscapesLeft(segment);
  }

  // ---------------------------------------------------------------- letters, digits and escapes

  const CAPITALS := "ABCDEFGHIJKLMNOPQRSTUVWXYZ"
  const LETTERS := "abcdefghijklmnopqrstuvwxyz"
  const HEX := "0123456789abcdef"
  const HEX_CAPITALS := "0123456789ABCDEF"

  /** Every capital has its own small letter, and anything else is left as it is. */
  lemma LowersLetters(c: char)
    ensures forall k | 0 <= k < 26 :: LowerChar(CAPITALS[k]) == LETTERS[k]
    ensures c !in CAPITALS ==> LowerChar(c) == c
  {
    assert CAPITALS[25] == 'Z';
    if 'A' <= c <= 'Z' {
      assert CAPITALS[c as int - 'A' as int] == c;
    }
  }

  lemma HexExactly(c: char)
    ensures IsHex(c) <==> c in HEX || c in HEX_CAPITALS
    ensures forall k | 0 <= k < 16 :: IsHex(HEX[k]) && HexValue(HEX[k]) == k
    ensures forall k | 0 <= k < 16 :: IsHex(HEX_CAPITALS[k]) && HexValue(HEX_CAPITALS[k]) == k
  {
    assert HEX[15] == 'f' && HEX_CAPITALS[15] == 'F';
    if IsHex(c) {
      assert HEX[HexValue(c)] == c || HEX_CAPITALS[HexValue(c)] == c;
    }
  }

  /** Every byte escaped, its high digit first. */
  function Escaped(bytes: string): string
    requires forall i | 0 <= i < |bytes| :: bytes[i] as int < 256
  {
    if bytes == "" then ""
    else ['%', HEX[bytes[0] as int / 16], HEX_CAPITALS[bytes[0] as int % 16]] + Escaped(bytes[1..])
  }

  lemma ByteOfDigits(c: char)
    requires c as int < 256
    ensures var h, l := HEX[c as int / 16], HEX_CAPITALS[c as int % 16]; IsHex(h) && IsHex(l) && Byte(h, l) == c
  {
    HexExactly(c);
  }

  /** Whatever bytes are escaped, decoding gives them back. */
  lemma {:induction false} EscapesDecode(bytes: string)
    requires forall i | 0 <= i < |bytes| :: bytes[i] as int < 256
    ensures Unescape(Escaped(bytes)) == Some(bytes)
  {
    if bytes != "" {
      EscapesDecode(bytes[1..]);
      ByteOfDigits(bytes[0]);
      UnescapeEscape(HEX[bytes[0] as int / 16], HEX_CAPITALS[bytes[0] as int % 16], Escaped(bytes[1..]));
      assert [bytes[0]] + bytes[1..] == bytes;
    }
  }

  /** What is searched for stands somewhere in the text, with anything around it. */
  lemma ContainsExactly(s: string, sub: string)
    ensures Contains(s, sub) <==> exists a, b :: s == a + sub + b
  {
    if Contains(s, sub) {
      var i: nat :| i <= |s| && At(s, sub, i);
      assert s == s[..i] + sub + s[i + |sub|..];
    }
    forall a, b | s == a + sub + b ensures Contains(s, sub) {
      assert s[|a|..|a| + |sub|] == sub;
      assert At(s, sub, |a|);
    }
  }
}
