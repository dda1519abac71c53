/**
 Splitting text: at "/" for the gateway's path policy (internal/gateway/policy.go), and into lines as the chunks of
 a stream arrive, the shared shape of the log reader (web/src/composables/useLogsStream.ts) and of the watch reader
 (web/src/composables/useWatch.ts).
 */
module TextSplit {
  import opened Wrappers

  /** String.split(sep), strings.Split. */
  function Parts(text: string, sep: char := '\n'): (parts: seq<string>)
    ensures |parts| >= 1
  {
    if text == "" then [""] else Put(text[0], Parts(text[1..], sep), sep)
  }

  /** One more character in front. */
  function Put(c: char, parts: seq<string>, sep: char := '\n'): (more: seq<string>)
    requires |parts| >= 1
    ensures |more| >= 1
  {
    if c == sep then [""] + parts else [[c] + parts[0]] + parts[1..]
  }

  /** The last part replaced by others. */
  function Extend(parts: seq<string>, others: seq<string>): (all: seq<string>)
    requires |parts| >= 1 && |others| >= 1
    ensures |all| >= 1
  {
    parts[..|parts| - 1] + others
  }

  function Complete(text: string): seq<string> {
    Parts(text)[..|Parts(text)| - 1]
  }

  function Rest(text: string): string {
    Parts(text)[|Parts(text)| - 1]
  }

  function Joined(parts: seq<string>, sep: char := '\n'): string {
    if parts == [] then "" else if |parts| == 1 then parts[0] else parts[0] + [sep] + Joined(parts[1..], sep)
  }

  /** What split means: no part holds the separator, and joining the parts with it gives the text back. */
  lemma {:induction false} PartsAreTheLines(text: string, sep: char := '\n')
    ensures Joined(Parts(text, sep), sep) == text
    ensures forall i | 0 <= i < |Parts(text, sep)| :: sep !in Parts(text, sep)[i]
  {
    if text != "" {
      PartsAreTheLines(text[1..], sep);
      var rest := Parts(text[1..], sep);
      if text[0] == sep {
        assert ([""] + rest)[1..] == rest;
      } else {
        JoinedHead(text[0], rest, sep);
      }
    }
  }

  lemma JoinedHead(c: char, rest: seq<string>, sep: char)
    requires rest != []
    ensures Joined([[c] + rest[0]] + rest[1..], sep) == [c] + Joined(rest, sep)
  {
    var parts := [[c] + rest[0]] + rest[1..];
    assert parts[1..] == rest[1..];
    if |rest| > 1 {
      assert ([c] + rest[0]) + [sep] + Joined(rest[1..], sep) == [c] + (rest[0] + [sep] + Joined(rest[1..], sep));
    }
  }

  /** More text changes only the last part. */
  lemma {:induction false} PartsAppend(a: string, b: string)
    ensures Parts(a + b) == Extend(Parts(a), Parts(Rest(a) + b))
  {
    if a == "" {
      assert a + b == b && Rest(a) + b == b;
    } else {
      var c, t := a[0], a[1..];
      assert (a + b)[1..] == t + b;
      PartsAppend(t, b);
      if c != '\n' && |Parts(t)| == 1 {
        RestPut(c, t, b);
        PartsPut(c, Rest(t) + b);
      } else {
        PutLater(c, Parts(t), Parts(Rest(t) + b));
      }
    }
  }

  lemma PartsPut(c: char, t: string)
    ensures Parts([c] + t) == Put(c, Parts(t))
  {
    assert ([c] + t)[1..] == t;
  }

  lemma RestPut(c: char, t: string, b: string)
    requires c != '\n' && |Parts(t)| == 1
    ensures Put(c, Parts(t)) == [[c] + Rest(t)]
    ensures ([c] + Rest(t)) + b == [c] + (Rest(t) + b)
  {
  }

  lemma PutLater(c: char, parts: seq<string>, others: seq<string>)
    requires |parts| >= 1 && |others| >= 1
    requires c == '\n' || |parts| > 1
    ensures Put(c, Extend(parts, others)) == Extend(Put(c, parts), others)
    ensures Put(c, parts)[|Put(c, parts)| - 1] == parts[|parts| - 1]
  {
  }

  /** The text of all chunks. */
  function Flat(chunks: seq<string>): string {
    if chunks == [] then "" else chunks[0] + Flat(chunks[1..])
  }

  /** Every line completed while the chunks arrive, starting with `carry` left over from before. */
  function Fed(carry: string, chunks: seq<string>): seq<string>
    decreases |chunks|
  {
    if chunks == [] then []
    else Complete(carry + chunks[0]) + Fed(Rest(carry + chunks[0]), chunks[1..])
  }

  /** What is left over after the last chunk. */
  function Carried(carry: string, chunks: seq<string>): string
    decreases |chunks|
  {
    if chunks == [] then carry else Carried(Rest(carry + chunks[0]), chunks[1..])
  }

  /** However the text is cut into chunks, the lines are those of the whole text. */
  lemma {:induction false} ChunksDoNotMatter(carry: string, chunks: seq<string>)
    requires Complete(carry) == []
    ensures Fed(carry, chunks) == Complete(carry + Flat(chunks))
    ensures Carried(carry, chunks) == Rest(carry + Flat(chunks))
    decreases |chunks|
  {
    if chunks == [] {
      assert carry + Flat(chunks) == carry;
      RestOfUnbroken(carry);
    } else {
      var so, rest := carry + chunks[0], Flat(chunks[1..]);
      RestIsUnbroken(so);
      ChunksDoNotMatter(Rest(so), chunks[1..]);
      Assoc(carry, chunks[0], rest);
      MoreText(so, rest);
    }
  }

  lemma MoreText(a: string, b: string)
    ensures Complete(a + b) == Complete(a) + Complete(Rest(a) + b)
    ensures Rest(a + b) == Rest(Rest(a) + b)
  {
    PartsAppend(a, b);
    LastOf(Complete(a), Parts(Rest(a) + b));
  }

  lemma LastOf(front: seq<string>, tail: seq<string>)
    requires |tail| >= 1
    ensures var whole := front + tail;
            whole[..|whole| - 1] == front + tail[..|tail| - 1] && whole[|whole| - 1] == tail[|tail| - 1]
  {
  }

  lemma {:induction false} RestIsUnbroken(text: string)
    ensures Complete(Rest(text)) == [] && Rest(Rest(text)) == Rest(text)
  {
    PartsAreTheLines(text);
    Unbroken(Rest(text));
  }

  lemma {:induction false} Unbroken(text: string)
    requires '\n' !in text
    ensures Parts(text) == [text]
  {
    if text != "" {
      Unbroken(text[1..]);
      assert [text[0]] + text[1..] == text;
    }
  }

  lemma RestOfUnbroken(text: string)
    requires Complete(text) == []
    ensures Rest(text) == text
  {
    PartsAreTheLines(text);
    assert Parts(text) == [Rest(text)];
  }
}
