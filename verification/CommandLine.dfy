/**
 The exec command line of web/src/utils/podHelpers.ts: a quoting printer and the parser that reads it back.
 */
module CommandLine {
  import opened Wrappers

  import opened JsText

  datatype Quote = Bare | Single | Double
  datatype Scan = Scan(argv: seq<string>, current: string, started: bool, quote: Quote)

  const Begin := Scan([], "", false, Bare)

  predicate Escapable(c: char) {
    c == '"' || c == '\\'
  }

  /** How many characters the parser consumes at the head of `s`: an escape takes two. */
  function Width(q: Quote, s: string): (n: nat)
    requires s != ""
    ensures 1 <= n <= |s|
  {
    if s[0] == '\\' && |s| > 1 && (q == Bare || (q == Double && Escapable(s[1]))) then 2 else 1
  }

  /** What it does with them. */
  function Taken(st: Scan, s: string): Scan
    requires s != ""
  {
    var c := s[0];
    match st.quote
    case Single => if c == '\'' then st.(quote := Bare) else st.(current := st.current + [c])
    case Double =>
      if Width(Double, s) == 2 then st.(current := st.current + [s[1]])
      else if c == '"' then st.(quote := Bare) else st.(current := st.current + [c])
    case Bare =>
      if c == '\'' then st.(quote := Single, started := true)
      else if c == '"' then st.(quote := Double, started := true)
      else if Width(Bare, s) == 2 then st.(current := st.current + [s[1]], started := true)
      else if IsSpace(c) then
        Scan(if st.started then st.argv + [st.current] else st.argv, "", false, Bare)
      else st.(current := st.current + [c], started := true)
  }

  function Scanned(st: Scan, s: string): Scan
    decreases |s|
  {
    if s == "" then st else Scanned(Taken(st, s), s[Width(st.quote, s)..])
  }

  function Finished(st: Scan): seq<string> {
    if st.started then st.argv + [st.current] else st.argv
  }

  function Parsed(line: string): seq<string> {
    Finished(Scanned(Begin, line))
  }

  /** parseCommandLine. */
  method ParseCommandLine(line: string) returns (argv: seq<string>)
    ensures argv == Parsed(line)
  {
    argv := [];
    var current, started, quote := "", false, Bare;
    var i := 0;
    while i < |line|
      invariant 0 <= i <= |line|
      invariant Scanned(Scan(argv, current, started, quote), line[i..]) == Scanned(Begin, line)
    {
      ghost var st := Scan(argv, current, started, quote);
      ghost var i0, n := i, Width(quote, line[i..]);
      var ch := line[i];
      if quote == Single {
        if ch == '\'' {
          quote := Bare;
        } else {
          current := current + [ch];
        }
      } else if quote == Double {
        if ch == '\\' && i + 1 < |line| && (line[i + 1] == '"' || line[i + 1] == '\\') {
          i := i + 1;
          current := current + [line[i]];
        } else if ch == '"' {
          quote := Bare;
        } else {
          current := current + [ch];
        }
      } else if ch == '\'' || ch == '"' {
        quote := if ch == '\'' then Single else Double;
        started := true;
      } else if ch == '\\' && i + 1 < |line| {
        i := i + 1;
        current := current + [line[i]];
        started := true;
      } else if IsSpace(ch) {
        if started {
          argv := argv + [current];
        }
        current, started := "", false;
      } else {
        current, started := current + [ch], true;
      }
      i := i + 1;
      assert Scan(argv, current, started, quote) == Taken(st, line[i0..]) && i == i0 + n;
      assert line[i0..][n..] == line[i..];
    }
    assert line[i..] == "";
    if started {
      argv := argv + [current];
    }
  }

  // ---------------------------------------------------------------- the printer

  predicate Plain(c: char) {
    'A' <= c <= 'Z' || 'a' <= c <= 'z' || '0' <= c <= '9' || c in "_@%+=:,./-"
  }

  /** replace(/["\\]/g, "\\$&"). */
  function Escaped(arg: string): string {
    if arg == "" then ""
    else
      var more := [arg[0]] + Escaped(arg[1..]);
      if Escapable(arg[0]) then "\\" + more else more
  }

  function QuoteArg(arg: string): string {
    if arg != "" && All(arg, Plain) then arg
    else if '\'' !in arg then "'" + arg + "'"
    else "\"" + Escaped(arg) + "\""
  }

  function Formatted(argv: seq<string>): string {
    if argv == [] then ""
    else if |argv| == 1 then QuoteArg(argv[0])
    else QuoteArg(argv[0]) + (" " + Formatted(argv[1..]))
  }

  // ---------------------------------------------------------------- reading back

  lemma Peel(arg: string, rest: string)
    requires arg != ""
    ensures arg + rest == [arg[0]] + (arg[1..] + rest)
  {
  }

  lemma PushRest(current: string, arg: string)
    requires arg != ""
    ensures (current + [arg[0]]) + arg[1..] == current + arg
  {
  }

  lemma NothingLeft(current: string, rest: string)
    ensures current + "" == current && "" + rest == rest
  {
  }

  lemma One(st: Scan, c: char, rest: string)
    requires c != '\\' || st.quote == Single
    ensures Scanned(st, [c] + rest) == Scanned(Taken(st, [c]), rest)
  {
    var s := [c] + rest;
    assert s[1..] == rest && Width(st.quote, s) == 1 == Width(st.quote, [c]);
    assert Taken(st, s) == Taken(st, [c]);
  }

  lemma OneEscape(st: Scan, c: char, rest: string)
    requires st.quote == Double && Escapable(c)
    ensures Scanned(st, "\\" + ([c] + rest)) == Scanned(st.(current := st.current + [c]), rest)
  {
    var s := "\\" + ([c] + rest);
    assert s[2..] == rest && Width(Double, s) == 2;
  }

  /** A stretch whose characters are each taken as they are, one by one. */
  lemma {:induction false} ReadAsIs(st: Scan, arg: string, rest: string)
    requires (st.quote == Bare && st.started && All(arg, Plain)) || (st.quote == Single && '\'' !in arg)
    ensures Scanned(st, arg + rest) == Scanned(st.(current := st.current + arg), rest)
    decreases |arg|
  {
    if arg == "" {
      NothingLeft(st.current, rest);
    } else {
      var c, tail := arg[0], arg[1..];
      Peel(arg, rest);
      assert st.quote == Bare ==> Plain(c) && !IsSpace(c) && c != '\\';
      One(st, c, tail + rest);
      assert Taken(st, [c]) == st.(current := st.current + [c]);
      ReadAsIs(st.(current := st.current + [c]), tail, rest);
      PushRest(st.current, arg);
    }
  }

  lemma EscapedCons(arg: string, rest: string)
    requires arg != ""
    ensures Escaped(arg) + rest
         == var more := [arg[0]] + (Escaped(arg[1..]) + rest); if Escapable(arg[0]) then "\\" + more else more
  {
    var c, more := [arg[0]], Escaped(arg[1..]);
    Assoc(c, more, rest);
    Assoc("\\", c + more, rest);
  }

  lemma {:induction false} ReadDouble(st: Scan, arg: string, rest: string)
    requires st.quote == Double
    ensures Scanned(st, Escaped(arg) + rest) == Scanned(st.(current := st.current + arg), rest)
    decreases |arg|
  {
    if arg == "" {
      NothingLeft(st.current, rest);
    } else {
      var c, tail := arg[0], arg[1..];
      EscapedCons(arg, rest);
      if Escapable(c) {
        OneEscape(st, c, Escaped(tail) + rest);
      } else {
        One(st, c, Escaped(tail) + rest);
        assert Taken(st, [c]) == st.(current := st.current + [c]);
      }
      ReadDouble(st.(current := st.current + [c]), tail, rest);
      PushRest(st.current, arg);
    }
  }

  lemma Enclosed(q: char, inner: string, rest: string)
    ensures ([q] + inner + [q]) + rest == [q] + (inner + ([q] + rest))
  {
  }

  lemma ReadPlainArg(argv: seq<string>, arg: string, rest: string)
    requires arg != "" && All(arg, Plain)
    ensures Scanned(Scan(argv, "", false, Bare), arg + rest) == Scanned(Scan(argv, arg, true, Bare), rest)
  {
    var c, tail := arg[0], arg[1..];
    var st := Scan(argv, "", false, Bare);
    Peel(arg, rest);
    FirstPlain(st, arg);
    One(st, c, tail + rest);
    ReadAsIs(Scan(argv, [c], true, Bare), tail, rest);
    PushRest("", arg);
    NothingLeft("", arg);
  }

  lemma FirstPlain(st: Scan, arg: string)
    requires arg != "" && All(arg, Plain) && st.quote == Bare && st.current == ""
    ensures arg[0] != '\\' && Taken(st, [arg[0]]) == st.(current := [arg[0]], started := true) && All(arg[1..], Plain)
    ensures "" + [arg[0]] == [arg[0]]
  {
    assert Plain(arg[0]) && !IsSpace(arg[0]);
  }

  /** A printed argument, wherever it stands, is read as that argument. */
  lemma ReadArg(argv: seq<string>, arg: string, rest: string)
    ensures Scanned(Scan(argv, "", false, Bare), QuoteArg(arg) + rest) == Scanned(Scan(argv, arg, true, Bare), rest)
  {
    var st := Scan(argv, "", false, Bare);
    NothingLeft("", arg);
    if arg != "" && All(arg, Plain) {
      ReadPlainArg(argv, arg, rest);
    } else if '\'' !in arg {
      Enclosed('\'', arg, rest);
      One(st, '\'', arg + (['\''] + rest));
      ReadAsIs(Scan(argv, "", true, Single), arg, ['\''] + rest);
      One(Scan(argv, arg, true, Single), '\'', rest);
    } else {
      Enclosed('"', Escaped(arg), rest);
      One(st, '"', Escaped(arg) + (['"'] + rest));
      ReadDouble(Scan(argv, "", true, Double), arg, ['"'] + rest);
      One(Scan(argv, arg, true, Double), '"', rest);
    }
  }

  lemma {:induction false} ReadAll(before: seq<string>, argv: seq<string>)
    ensures Finished(Scanned(Scan(before, "", false, Bare), Formatted(argv))) == before + argv
    decreases |argv|
  {
    if argv == [] {
      assert before + argv == before;
    } else if |argv| == 1 {
      NothingLeft(QuoteArg(argv[0]), "");
      ReadArg(before, argv[0], "");
      assert before + argv == before + [argv[0]];
    } else {
      var rest := Formatted(argv[1..]);
      ReadArg(before, argv[0], " " + rest);
      One(Scan(before, argv[0], true, Bare), ' ', rest);
      ReadAll(before + [argv[0]], argv[1..]);
      Regroup(before, argv);
    }
  }

  lemma Regroup(before: seq<string>, argv: seq<string>)
    requires argv != []
    ensures (before + [argv[0]]) + argv[1..] == before + argv
  {
  }

  /** Whatever argv is printed, exactly that argv is read back. */
  lemma PrintThenParse(argv: seq<string>)
    ensures Parsed(Formatted(argv)) == argv
  {
    ReadAll([], argv);
    assert [] + argv == argv;
  }

  /** So a line has one canonical form: it means the same, and is its own canonical form. */
  lemma FormattingIsCanonical(line: string)
    ensures Parsed(Formatted(Parsed(line))) == Parsed(line)
    ensures Formatted(Parsed(Formatted(Parsed(line)))) == Formatted(Parsed(line))
  {
    PrintThenParse(Parsed(line));
  }

  /**
   An argument is shown as it is exactly if it is nonempty and made of letters, digits and _@%+=:,./- alone; otherwise
   it stands in single quotes if it holds none, and in double quotes if it does.
   */
  lemma ShownExactly(arg: string)
    ensures QuoteArg(arg) == arg <==>
              arg != "" &&
              forall c | c in arg ::
                'A' <= c <= 'Z' || 'a' <= c <= 'z' || '0' <= c <= '9' ||
                c in {'_', '@', '%', '+', '=', ':', ',', '.', '/', '-'}
    ensures QuoteArg(arg) != arg && '\'' !in arg ==> QuoteArg(arg) == "'" + arg + "'"
    ensures '\'' in arg ==> Starts(QuoteArg(arg), '"')
  {
    PlainText(arg);
    if '\'' in arg {
      assert !Plain('\'');
    }
    EscapesGrow(arg);
    assert |"'" + arg + "'"| == |arg| + 2 && |"\"" + Escaped(arg) + "\""| >= |arg| + 2;
  }

  lemma PlainText(arg: string)
    ensures All(arg, Plain) <==>
              forall c | c in arg ::
                'A' <= c <= 'Z' || 'a' <= c <= 'z' || '0' <= c <= '9' ||
                c in {'_', '@', '%', '+', '=', ':', ',', '.', '/', '-'}
  {
    forall c: char
      ensures Plain(c) <==>
                'A' <= c <= 'Z' || 'a' <= c <= 'z' || '0' <= c <= '9' ||
                c in {'_', '@', '%', '+', '=', ':', ',', '.', '/', '-'}
    {
      assert "_@%+=:,./-" == ['_', '@', '%', '+', '=', ':', ',', '.', '/', '-'];
    }
    assert All(arg, Plain) <==> forall c | c in arg :: Plain(c);
  }

  lemma {:induction false} EscapesGrow(arg: string)
    ensures |Escaped(arg)| >= |arg|
  {
    if arg != "" {
      EscapesGrow(arg[1..]);
    }
  }

  /** Two argvs are never shown alike. */
  lemma PrintingIsInjective(a: seq<string>, b: seq<string>)
    requires Formatted(a) == Formatted(b)
    ensures a == b
  {
    PrintThenParse(a);
    PrintThenParse(b);
  }

  // ---------------------------------------------------------------- what a line can be made of

  /** Inside double quotes: a character that stands for itself, or an escaped quote or backslash. */
  datatype Unit = Raw(c: char) | Esc(c: char)

  datatype Piece =
    | Gap(c: char)
    | Char(c: char)
    | Escape(c: char)
    | Quoted(text: string)
    | DoubleQuoted(units: seq<Unit>)

  /** What a line may break off in. */
  datatype Tail = Nothing | LoneBackslash | OpenSingle(text: string) | OpenDouble(units: seq<Unit>)

  /** A backslash stands for itself unless a quote or a backslash follows; `closed`: the closing quote does. */
  predicate AreUnits(units: seq<Unit>, closed: bool) {
    units == [] ||
    (AreUnits(units[1..], closed) &&
     match units[0]
     case Esc(c) => c == '"' || c == '\\'
     case Raw(c) =>
       && c != '"'
       && (c == '\\' ==>
             if |units| == 1 then !closed
             else units[1].Raw? && units[1].c != '"' && units[1].c != '\\'))
  }

  predicate IsPiece(p: Piece) {
    match p
    case Gap(c) => IsSpace(c)
    case Char(c) => !IsSpace(c) && c != '\'' && c != '"' && c != '\\'
    case Escape(_) => true
    case Quoted(text) => '\'' !in text
    case DoubleQuoted(units) => AreUnits(units, true)
  }

  predicate IsTail(t: Tail) {
    match t
    case OpenSingle(text) => '\'' !in text
    case OpenDouble(units) => AreUnits(units, false)
    case _ => true
  }

  function SpelledUnits(units: seq<Unit>): string {
    if units == [] then ""
    else
      match units[0]
      case Raw(c) => [c] + SpelledUnits(units[1..])
      case Esc(c) => "\\" + ([c] + SpelledUnits(units[1..]))
  }

  function Spelled(pieces: seq<Piece>, tail: Tail): string {
    if pieces == [] then
      match tail
      case Nothing => ""
      case LoneBackslash => "\\"
      case OpenSingle(text) => "'" + text
      case OpenDouble(units) => "\"" + SpelledUnits(units)
    else PieceText(pieces[0], Spelled(pieces[1..], tail))
  }

  function PieceText(p: Piece, rest: string): string {
    match p
    case Gap(c) => [c] + rest
    case Char(c) => [c] + rest
    case Escape(c) => "\\" + ([c] + rest)
    case Quoted(text) => "'" + (text + ("'" + rest))
    case DoubleQuoted(units) => "\"" + (SpelledUnits(units) + ("\"" + rest))
  }

  /** What the units stand for. */
  function Literal(units: seq<Unit>): string {
    if units == [] then "" else [units[0].c] + Literal(units[1..])
  }

  /** The arguments of a line: those before, and the one begun if one is; a gap ends it, anything else goes on it. */
  function Meaning(argv: seq<string>, word: Option<string>, pieces: seq<Piece>, tail: Tail): seq<string>
    decreases |pieces|
  {
    var begun := if word.Some? then word.value else "";
    if pieces == [] then
      match tail
      case Nothing => if word.Some? then argv + [begun] else argv
      case LoneBackslash => argv + [begun + "\\"]
      case OpenSingle(text) => argv + [begun + text]
      case OpenDouble(units) => argv + [begun + Literal(units)]
    else
      match pieces[0]
      case Gap(_) => Meaning(if word.Some? then argv + [begun] else argv, None, pieces[1..], tail)
      case Char(c) => Meaning(argv, Some(begun + [c]), pieces[1..], tail)
      case Escape(c) => Meaning(argv, Some(begun + [c]), pieces[1..], tail)
      case Quoted(text) => Meaning(argv, Some(begun + text), pieces[1..], tail)
      case DoubleQuoted(units) => Meaning(argv, Some(begun + Literal(units)), pieces[1..], tail)
  }

  // ---------------------------------------------------------------- every spelling is read as what it means

  lemma OneBackslash(st: Scan, c: char, rest: string)
    requires st.quote == Bare || (st.quote == Double && Escapable(c))
    ensures Scanned(st, "\\" + ([c] + rest))
         == Scanned(st.(current := st.current + [c], started := st.started || st.quote == Bare), rest)
  {
    var s := "\\" + ([c] + rest);
    assert s[2..] == rest && Width(st.quote, s) == 2;
  }

  lemma RawBackslash(st: Scan, rest: string)
    requires st.quote == Double && (rest != "" ==> !Escapable(rest[0]))
    ensures Scanned(st, "\\" + rest) == Scanned(st.(current := st.current + "\\"), rest)
  {
    var s := "\\" + rest;
    assert s[1..] == rest && Width(Double, s) == 1;
  }

  lemma PushLiteral(current: string, units: seq<Unit>)
    requires units != []
    ensures (current + [units[0].c]) + Literal(units[1..]) == current + Literal(units)
  {
    Assoc(current, [units[0].c], Literal(units[1..]));
  }

  lemma {:induction false} ReadUnits(st: Scan, units: seq<Unit>, closed: bool, rest: string)
    requires st.quote == Double && AreUnits(units, closed) && (if closed then Starts(rest, '"') else rest == "")
    ensures Scanned(st, SpelledUnits(units) + rest) == Scanned(st.(current := st.current + Literal(units)), rest)
    decreases |units|
  {
    if units == [] {
      NothingLeft(st.current, rest);
    } else {
      var c, more := units[0].c, SpelledUnits(units[1..]);
      var next := st.(current := st.current + [c]);
      if units[0].Esc? {
        Assoc("\\", [c] + more, rest);
        Assoc([c], more, rest);
        OneBackslash(st, c, more + rest);
      } else {
        Assoc([c], more, rest);
        if c == '\\' {
          AfterBackslash(units, closed, rest);
          RawBackslash(st, more + rest);
        } else {
          One(st, c, more + rest);
          assert Taken(st, [c]) == next;
        }
      }
      ReadUnits(next, units[1..], closed, rest);
      PushLiteral(st.current, units);
    }
  }

  lemma AfterBackslash(units: seq<Unit>, closed: bool, rest: string)
    requires units != [] && units[0] == Raw('\\') && AreUnits(units, closed) && (!closed ==> rest == "")
    ensures var more := SpelledUnits(units[1..]) + rest; more != "" ==> !Escapable(more[0])
  {
    if |units| > 1 {
      assert units[1..][0] == units[1];
      assert SpelledUnits(units[1..])[0] == units[1].c;
    }
  }

  lemma ReadSingle(st: Scan, text: string, rest: string)
    requires st.quote == Bare && '\'' !in text
    ensures Scanned(st, "'" + (text + ("'" + rest)))
         == Scanned(st.(current := st.current + text, started := true), rest)
  {
    One(st, '\'', text + ("'" + rest));
    ReadAsIs(st.(quote := Single, started := true), text, "'" + rest);
    One(Scan(st.argv, st.current + text, true, Single), '\'', rest);
  }

  lemma ReadDoubled(st: Scan, units: seq<Unit>, rest: string)
    requires st.quote == Bare && AreUnits(units, true)
    ensures Scanned(st, "\"" + (SpelledUnits(units) + ("\"" + rest)))
         == Scanned(st.(current := st.current + Literal(units), started := true), rest)
  {
    One(st, '"', SpelledUnits(units) + ("\"" + rest));
    ReadUnits(st.(quote := Double, started := true), units, true, "\"" + rest);
    One(Scan(st.argv, st.current + Literal(units), true, Double), '"', rest);
  }

  lemma ReadTail(st: Scan, tail: Tail)
    requires st.quote == Bare && (!st.started ==> st.current == "") && IsTail(tail)
    ensures Finished(Scanned(st, Spelled([], tail)))
         == Meaning(st.argv, if st.started then Some(st.current) else None, [], tail)
  {
    match tail
    case Nothing =>
    case LoneBackslash =>
      assert "\\"[1..] == "" && Width(Bare, "\\") == 1;
    case OpenSingle(text) =>
      One(st, '\'', text);
      NothingLeft(text, "");
      ReadAsIs(st.(quote := Single, started := true), text, "");
    case OpenDouble(units) =>
      One(st, '"', SpelledUnits(units));
      NothingLeft(SpelledUnits(units), "");
      ReadUnits(st.(quote := Double, started := true), units, false, "");
  }

  /** The state behind a piece. */
  function Behind(st: Scan, p: Piece): Scan {
    match p
    case Gap(_) => Scan(if st.started then st.argv + [st.current] else st.argv, "", false, Bare)
    case Char(c) => st.(current := st.current + [c], started := true)
    case Escape(c) => st.(current := st.current + [c], started := true)
    case Quoted(text) => st.(current := st.current + text, started := true)
    case DoubleQuoted(units) => st.(current := st.current + Literal(units), started := true)
  }

  lemma ReadPiece(st: Scan, p: Piece, rest: string)
    requires st.quote == Bare && IsPiece(p)
    ensures Scanned(st, PieceText(p, rest)) == Scanned(Behind(st, p), rest)
  {
    match p
    case Gap(c) => One(st, c, rest);
    case Char(c) => One(st, c, rest);
    case Escape(c) => OneBackslash(st, c, rest);
    case Quoted(text) => ReadSingle(st, text, rest);
    case DoubleQuoted(units) => ReadDoubled(st, units, rest);
  }

  lemma {:induction false} ReadPieces(st: Scan, pieces: seq<Piece>, tail: Tail)
    requires st.quote == Bare && (!st.started ==> st.current == "")
    requires (forall i | 0 <= i < |pieces| :: IsPiece(pieces[i])) && IsTail(tail)
    ensures Finished(Scanned(st, Spelled(pieces, tail)))
         == Meaning(st.argv, if st.started then Some(st.current) else None, pieces, tail)
    decreases |pieces|
  {
    if pieces == [] {
      ReadTail(st, tail);
    } else {
      assert IsPiece(pieces[0]);
      ReadPiece(st, pieces[0], Spelled(pieces[1..], tail));
      ReadPieces(Behind(st, pieces[0]), pieces[1..], tail);
    }
  }

  /** However a line is put together, what is read is what its pieces mean. */
  lemma ReadsWhatIsMeant(pieces: seq<Piece>, tail: Tail)
    requires (forall i | 0 <= i < |pieces| :: IsPiece(pieces[i])) && IsTail(tail)
    ensures Parsed(Spelled(pieces, tail)) == Meaning([], None, pieces, tail)
  {
    ReadPieces(Begin, pieces, tail);
  }

  // ---------------------------------------------------------------- and every line is a spelling

  lemma {:induction false} UnitsOf(s: string) returns (units: seq<Unit>, closed: bool, rest: string)
    ensures AreUnits(units, closed) && |rest| <= |s|
    ensures s == SpelledUnits(units) + (if closed then "\"" + rest else "")
    decreases |s|
  {
    if s == "" {
      return [], false, "";
    } else if s[0] == '"' {
      assert s == "" + ("\"" + s[1..]);
      return [], true, s[1..];
    } else if s[0] == '\\' && |s| > 1 && Escapable(s[1]) {
      units, closed, rest := UnitsOf(s[2..]);
      var end := if closed then "\"" + rest else "";
      assert s == "\\" + ([s[1]] + s[2..]);
      Assoc([s[1]], SpelledUnits(units), end);
      Assoc("\\", [s[1]] + SpelledUnits(units), end);
      MoreUnits(Esc(s[1]), units);
      units := [Esc(s[1])] + units;
    } else {
      units, closed, rest := UnitsOf(s[1..]);
      var end := if closed then "\"" + rest else "";
      assert s == [s[0]] + s[1..];
      Assoc([s[0]], SpelledUnits(units), end);
      MoreUnits(Raw(s[0]), units);
      if units != [] {
        assert s[1] == SpelledUnits(units)[0];
      } else {
        assert closed ==> s[1] == '"';
      }
      units := [Raw(s[0])] + units;
    }
  }

  lemma MoreUnits(u: Unit, units: seq<Unit>)
    ensures ([u] + units)[1..] == units && ([u] + units)[0] == u
    ensures SpelledUnits([u] + units)
         == if u.Raw? then [u.c] + SpelledUnits(units) else "\\" + ([u.c] + SpelledUnits(units))
  {
    assert ([u] + units)[1..] == units;
  }

  lemma MorePieces(p: Piece, pieces: seq<Piece>)
    requires IsPiece(p) && forall i | 0 <= i < |pieces| :: IsPiece(pieces[i])
    ensures ([p] + pieces)[1..] == pieces && forall i | 0 <= i < |[p] + pieces| :: IsPiece(([p] + pieces)[i])
  {
  }

  lemma {:induction false} EveryLineIsSpelled(line: string) returns (pieces: seq<Piece>, tail: Tail)
    ensures (forall i | 0 <= i < |pieces| :: IsPiece(pieces[i])) && IsTail(tail)
    ensures Spelled(pieces, tail) == line
    decreases |line|
  {
    if line == "" {
      return [], Nothing;
    }
    var c := line[0];
    assert line == [c] + line[1..];
    if c == '\\' {
      if |line| == 1 {
        return [], LoneBackslash;
      }
      assert line == "\\" + ([line[1]] + line[2..]);
      pieces, tail := EveryLineIsSpelled(line[2..]);
      MorePieces(Escape(line[1]), pieces);
      pieces := [Escape(line[1])] + pieces;
    } else if c == '\'' {
      if '\'' !in line[1..] {
        return [], OpenSingle(line[1..]);
      }
      var n := FirstQuote(line[1..]);
      pieces, tail := EveryLineIsSpelled(line[1..][n + 1..]);
      MorePieces(Quoted(line[1..][..n]), pieces);
      pieces := [Quoted(line[1..][..n])] + pieces;
    } else if c == '"' {
      var units, closed, rest := UnitsOf(line[1..]);
      if !closed {
        NothingLeft("", SpelledUnits(units));
        return [], OpenDouble(units);
      }
      pieces, tail := EveryLineIsSpelled(rest);
      MorePieces(DoubleQuoted(units), pieces);
      pieces := [DoubleQuoted(units)] + pieces;
    } else {
      var p := if IsSpace(c) then Gap(c) else Char(c);
      pieces, tail := EveryLineIsSpelled(line[1..]);
      MorePieces(p, pieces);
      pieces := [p] + pieces;
    }
  }

  lemma {:induction false} FirstQuote(s: string) returns (n: nat)
    requires '\'' in s
    ensures n < |s| && '\'' !in s[..n] && s == s[..n] + ("'" + s[n + 1..])
    decreases |s|
  {
    if s[0] == '\'' {
      return 0;
    }
    n := FirstQuote(s[1..]);
    n := n + 1;
    assert s[..n] == [s[0]] + s[1..][..n - 1];
  }
}
