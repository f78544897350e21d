/**
  The message synthesised from a response body that JSON.parse rejects:
  strip every `<...>` span, collapse the first run of two or more newlines into
  one, trim, split into lines, keep the first occurrence of each line, and join
  the lines with single spaces.
 */
module Fallback {
  import opened Seqs

  // ---------------------------------------------------------------------------
  // content.replace(/<[^>]*>/g, "")

  /** No `<` is followed, anywhere later, by a `>`: nothing the tag pattern could match is left. */
  predicate NoTag(s: string) {
    forall i, j :: 0 <= i < j < |s| && s[i] == '<' ==> s[j] != '>'
  }

  /**
    Removes, scanning left to right, every `<` together with everything up to and
    including the next `>`; a `<` with no later `>` is kept.
   */
  function StripTags(s: string): string
    decreases |s|
  {
    if s == [] then []
    else if s[0] == '<' && '>' in s[1..] then
      StripTags(s[1..][IndexOf(s[1..], '>') + 1..])
    else
      [s[0]] + StripTags(s[1..])
  }

  /** Stripping introduces no character: a character absent from the input is absent from the output. */
  lemma {:induction false} StripTagsAbsent(s: string, c: char)
    requires forall k :: 0 <= k < |s| ==> s[k] != c
    ensures forall k :: 0 <= k < |StripTags(s)| ==> StripTags(s)[k] != c
    decreases |s|
  {
    if s != [] {
      if s[0] == '<' && '>' in s[1..] {
        var p := IndexOf(s[1..], '>');
        var rest := s[1..][p + 1..];
        assert forall m :: 0 <= m < |rest| ==> rest[m] == s[p + 2 + m];
        StripTagsAbsent(rest, c);
      } else {
        StripTagsAbsent(s[1..], c);
      }
    }
  }

  /** After stripping, no complete tag remains. */
  lemma {:induction false} StripTagsNoTag(s: string)
    ensures NoTag(StripTags(s))
    decreases |s|
  {
    if s != [] {
      if s[0] == '<' && '>' in s[1..] {
        StripTagsNoTag(s[1..][IndexOf(s[1..], '>') + 1..]);
      } else {
        var rest := StripTags(s[1..]);
        StripTagsNoTag(s[1..]);
        if s[0] == '<' {
          StripTagsAbsent(s[1..], '>');
        }
        var r := [s[0]] + rest;
        forall i, j | 0 <= i < j < |r| && r[i] == '<' ensures r[j] != '>' {
          assert r[j] == rest[j - 1];
          if i > 0 {
            assert r[i] == rest[i - 1];
          }
        }
      }
    }
  }

  /** Text without a complete tag is left alone, and only such text is: StripTags(s) == s exactly when NoTag(s). */
  lemma {:induction false} StripTagsFixpoint(s: string)
    ensures StripTags(s) == s <==> NoTag(s)
    decreases |s|
  {
    StripTagsNoTag(s);
    if s != [] && NoTag(s) {
      assert s[0] == '<' ==> '>' !in s[1..] by {
        if s[0] == '<' {
          forall m | 0 <= m < |s| - 1 ensures s[1..][m] != '>' {
            assert s[1..][m] == s[m + 1];
          }
        }
      }
      assert NoTag(s[1..]) by {
        forall i, j | 0 <= i < j < |s| - 1 && s[1..][i] == '<' ensures s[1..][j] != '>' {
          assert s[1..][i] == s[i + 1] && s[1..][j] == s[j + 1];
        }
      }
      StripTagsFixpoint(s[1..]);
      assert s == [s[0]] + s[1..];
    }
  }

  // ---------------------------------------------------------------------------
  // .replace(/\n{2,}/, "\n"): without the g flag only the leftmost run is replaced

  /** No two adjacent newlines. */
  predicate NoDoubleNewline(s: string) {
    forall i :: 0 <= i < |s| - 1 ==> !(s[i] == '\n' && s[i + 1] == '\n')
  }

  /** Drops the newlines at the front of `s`. */
  function DropNewlines(s: string): string
  {
    if s != [] && s[0] == '\n' then DropNewlines(s[1..]) else s
  }

  /** Replaces the leftmost run of two or more newlines, taken whole (the quantifier is greedy), by one newline. */
  function CollapseFirst(s: string): string
  {
    if |s| < 2 then s
    else if s[0] == '\n' && s[1] == '\n' then "\n" + DropNewlines(s)
    else [s[0]] + CollapseFirst(s[1..])
  }

  lemma {:induction false} DropNewlinesRun(s: string, j: nat)
    requires j <= |s|
    requires forall k :: 0 <= k < j ==> s[k] == '\n'
    requires j == |s| || s[j] != '\n'
    ensures DropNewlines(s) == s[j..]
  {
    if j > 0 {
      DropNewlinesRun(s[1..], j - 1);
    }
  }

  /** Text with no run of two newlines is unchanged. */
  lemma {:induction false} CollapseFirstNoRun(s: string)
    requires NoDoubleNewline(s)
    ensures CollapseFirst(s) == s
  {
    if |s| >= 2 {
      assert !(s[0] == '\n' && s[1] == '\n');
      assert NoDoubleNewline(s[1..]) by {
        forall i | 0 <= i < |s| - 2 ensures !(s[1..][i] == '\n' && s[1..][i + 1] == '\n') {
          assert s[1..][i] == s[i + 1] && s[1..][i + 1] == s[i + 2];
        }
      }
      CollapseFirstNoRun(s[1..]);
      assert s == [s[0]] + s[1..];
    }
  }

  /**
    When the leftmost run of newlines occupies s[i..j], the result is the text
    before it, one newline, and the text after it; nothing after the run changes.
   */
  lemma {:induction false} CollapseFirstRun(s: string, i: nat, j: nat)
    requires i + 2 <= j <= |s|
    requires NoDoubleNewline(s[..i + 1])
    requires forall k :: i <= k < j ==> s[k] == '\n'
    requires j == |s| || s[j] != '\n'
    ensures CollapseFirst(s) == s[..i] + "\n" + s[j..]
  {
    if i == 0 {
      DropNewlinesRun(s, j);
    } else {
      var t := s[1..];
      assert CollapseFirst(s) == [s[0]] + CollapseFirst(t) by {
        assert s[..i + 1][0] == s[0] && s[..i + 1][1] == s[1];
      }
      assert NoDoubleNewline(t[..i]) by {
        forall k | 0 <= k < i - 1 ensures !(t[..i][k] == '\n' && t[..i][k + 1] == '\n') {
          assert t[..i][k] == s[..i + 1][k + 1] && t[..i][k + 1] == s[..i + 1][k + 2];
        }
      }
      assert forall k :: i - 1 <= k < j - 1 ==> t[k] == '\n' by {
        assert forall k :: i - 1 <= k < j - 1 ==> t[k] == s[k + 1];
      }
      CollapseFirstRun(t, i - 1, j - 1);
      assert t[..i - 1] == s[1..i] && t[j - 1..] == s[j..];
      assert s[..i] == [s[0]] + s[1..i];
    }
  }

  // ---------------------------------------------------------------------------
  // .trim()

  /**
    The characters String.prototype.trim removes: the ECMAScript WhiteSpace set
    (tab, vertical tab, form feed, space, no-break space, byte order mark and the
    Unicode space separators) and the LineTerminator set (LF, CR, U+2028, U+2029).
   */
  predicate IsWhitespace(c: char) {
    || c == '\t' || c == '\n' || c == '\U{000B}' || c == '\U{000C}' || c == '\r' || c == ' '
    || c == '\U{00A0}' || c == '\U{1680}' || ('\U{2000}' <= c <= '\U{200A}')
    || c == '\U{2028}' || c == '\U{2029}' || c == '\U{202F}' || c == '\U{205F}'
    || c == '\U{3000}' || c == '\U{FEFF}'
  }

  predicate AllWhitespace(s: string) {
    forall k :: 0 <= k < |s| ==> IsWhitespace(s[k])
  }

  /** Leading whitespace removed: a suffix of `s` preceded only by whitespace, and not itself starting with any. */
  function TrimStart(s: string): (r: string)
    ensures |r| <= |s| && r == s[|s| - |r|..]
    ensures AllWhitespace(s[..|s| - |r|])
    ensures r == [] || !IsWhitespace(r[0])
  {
    if s != [] && IsWhitespace(s[0]) then
      var r := TrimStart(s[1..]);
      TrimStartStep(s, r);
      r
    else s
  }

  /** Trailing whitespace removed: a prefix of `s` followed only by whitespace, and not itself ending in any. */
  function TrimEnd(s: string): (r: string)
    ensures |r| <= |s| && r == s[..|r|]
    ensures AllWhitespace(s[|r|..])
    ensures r == [] || !IsWhitespace(r[|r| - 1])
  {
    if s != [] && IsWhitespace(s[|s| - 1]) then
      var r := TrimEnd(s[..|s| - 1]);
      TrimEndStep(s, r);
      r
    else s
  }

  /** Whitespace in front of a trimmed-from-the-start tail is itself trimmed. */
  lemma TrimStartStep(s: string, r: string)
    requires s != [] && IsWhitespace(s[0])
    requires |r| <= |s| - 1 && r == s[1..][|s| - 1 - |r|..] && AllWhitespace(s[1..][..|s| - 1 - |r|])
    ensures r == s[|s| - |r|..] && AllWhitespace(s[..|s| - |r|])
  {
    assert s[..|s| - |r|] == [s[0]] + s[1..][..|s| - 1 - |r|];
  }

  /** Whitespace after a trimmed-from-the-end head is itself trimmed. */
  lemma TrimEndStep(s: string, r: string)
    requires s != [] && IsWhitespace(s[|s| - 1])
    requires |r| <= |s| - 1 && r == s[..|s| - 1][..|r|] && AllWhitespace(s[..|s| - 1][|r|..])
    ensures r == s[..|r|] && AllWhitespace(s[|r|..])
  {
    assert s[|r|..] == s[..|s| - 1][|r|..] + [s[|s| - 1]];
  }

  /** `s.trim()`. */
  function Trim(s: string): string
  {
    TrimEnd(TrimStart(s))
  }

  lemma {:induction false} TrimStartSkips(a: string, t: string)
    requires AllWhitespace(a)
    requires t == [] || !IsWhitespace(t[0])
    ensures TrimStart(a + t) == t
  {
    if a != [] {
      assert (a + t)[1..] == a[1..] + t;
      TrimStartSkips(a[1..], t);
    }
  }

  lemma {:induction false} TrimEndSkips(t: string, b: string)
    requires AllWhitespace(b)
    requires t == [] || !IsWhitespace(t[|t| - 1])
    ensures TrimEnd(t + b) == t
  {
    if b != [] {
      var b' := b[..|b| - 1];
      assert (t + b)[..|t + b| - 1] == t + b';
      TrimEndSkips(t, b');
    } else {
      assert t + b == t;
    }
  }

  /**
    Trim removes exactly the whitespace around its result: whenever `s` is
    whitespace, then `m`, then whitespace, with `m` neither starting nor ending
    in whitespace, Trim(s) is `m`.
   */
  lemma TrimUnique(a: string, m: string, b: string)
    requires AllWhitespace(a) && AllWhitespace(b)
    requires m == [] || (!IsWhitespace(m[0]) && !IsWhitespace(m[|m| - 1]))
    ensures Trim(a + m + b) == m
  {
    if m == [] {
      assert a + m + b == (a + b) + [];
      TrimStartSkips(a + b, []);
    } else {
      assert a + m + b == a + (m + b);
      TrimStartSkips(a, m + b);
      TrimEndSkips(m, b);
    }
  }

  /** How far TrimStart advances into `s`. */
  function TrimOffset(s: string): (i: nat)
    ensures i <= |s|
  {
    |s| - |TrimStart(s)|
  }

  /** The trimmed text is a piece of `s` with only whitespace around it. */
  lemma TrimSpec(s: string)
    ensures TrimOffset(s) + |Trim(s)| <= |s|
    ensures s == s[..TrimOffset(s)] + Trim(s) + s[TrimOffset(s) + |Trim(s)|..]
    ensures AllWhitespace(s[..TrimOffset(s)]) && AllWhitespace(s[TrimOffset(s) + |Trim(s)|..])
  {
    TrimPieces(s, TrimStart(s), Trim(s));
  }

  /** A prefix `r` of a suffix `t` of `s`, with whitespace removed on either side, is a piece of `s` between whitespace. */
  lemma TrimPieces(s: string, t: string, r: string)
    requires |t| <= |s| && t == s[|s| - |t|..] && AllWhitespace(s[..|s| - |t|])
    requires |r| <= |t| && r == t[..|r|] && AllWhitespace(t[|r|..])
    ensures var i := |s| - |t|;
      && s == s[..i] + r + s[i + |r|..]
      && AllWhitespace(s[..i]) && AllWhitespace(s[i + |r|..])
  {
    var i := |s| - |t|;
    var j := i + |r|;
    assert s[j..] == t[|r|..];
    assert r == s[i..j];
    assert s == s[..i] + s[i..j] + s[j..];
  }

  /** The trimmed text neither starts nor ends with whitespace. */
  lemma TrimEnds(s: string)
    ensures Trim(s) == [] || (!IsWhitespace(Trim(s)[0]) && !IsWhitespace(Trim(s)[|Trim(s)| - 1]))
  {
    var t := TrimStart(s);
    var r := TrimEnd(t);
    if r != [] {
      assert r[0] == t[0];
    }
  }

  // ---------------------------------------------------------------------------
  // The whole synthesiser

  /** The tag-stripped, once-collapsed, trimmed body. */
  function Cleaned(text: string): string
  {
    Trim(CollapseFirst(StripTags(text)))
  }

  /** The lines of the cleaned body, before de-duplication. */
  function Lines(text: string): seq<string>
  {
    Split(Cleaned(text), '\n')
  }

  /** `Array.from(new Set(lines))`. */
  function FallbackLines(text: string): seq<string>
  {
    Dedup(Lines(text))
  }

  /** The synthesised fallback message: one line, its lines separated by single spaces. */
  function FallbackMessage(text: string): (message: string)
    ensures '\n' !in message
  {
    FallbackLinesSpec(text);
    JoinAvoids(FallbackLines(text), " ", '\n');
    Join(FallbackLines(text), " ")
  }

  /**
    The joined parts are the lines of the cleaned body, each exactly once, in
    the order in which each first appears, and none holds a newline.
   */
  lemma FallbackLinesSpec(text: string)
    ensures Distinct(FallbackLines(text))
    ensures Covers(FallbackLines(text), Lines(text))
    ensures FirstSeenOrder(Lines(text), FallbackLines(text))
    ensures forall k :: 0 <= k < |FallbackLines(text)| ==> '\n' !in FallbackLines(text)[k]
  {
    DedupSpec(Lines(text));
    var parts := FallbackLines(text);
    forall k | 0 <= k < |parts| ensures '\n' !in parts[k] {
      var m := IndexOf(Lines(text), parts[k]);
    }
  }

  /** A character other than `<` is kept. */
  lemma StripTagsKeeps(c: char, rest: string)
    requires c != '<'
    ensures StripTags([c] + rest) == [c] + StripTags(rest)
  {
    assert ([c] + rest)[1..] == rest;
  }

  /** A complete tag `<...>` is removed. */
  lemma StripTagsDrops(tag: string, rest: string)
    requires |tag| >= 2 && tag[0] == '<' && tag[|tag| - 1] == '>'
    requires forall k :: 0 < k < |tag| - 1 ==> tag[k] != '>'
    ensures StripTags(tag + rest) == StripTags(rest)
  {
    var s := tag + rest;
    assert s[1..][|tag| - 2] == '>';
    var p := IndexOf(s[1..], '>');
    assert forall k :: 0 <= k < |tag| - 2 ==> s[1..][k] == tag[k + 1];
    assert p == |tag| - 2;
    assert s[1..][p + 1..] == rest;
  }

  /** Text without `<` passes through unchanged. */
  lemma {:induction false} StripTagsPlain(a: string, rest: string)
    requires '<' !in a
    ensures StripTags(a + rest) == a + StripTags(rest)
  {
    if a != [] {
      assert a + rest == [a[0]] + (a[1..] + rest);
      StripTagsKeeps(a[0], a[1..] + rest);
      assert '<' !in a[1..];
      StripTagsPlain(a[1..], rest);
      assert [a[0]] + (a[1..] + StripTags(rest)) == a + StripTags(rest);
    } else {
      assert a + rest == rest;
    }
  }

  /** A line that can stand alone in the fallback message: non-empty, no markup, no newline, not padded. */
  predicate PlainLine(a: string) {
    && a != []
    && '<' !in a && '>' !in a && '\n' !in a
    && !IsWhitespace(a[0]) && !IsWhitespace(a[|a| - 1])
  }

  /** `<p>a</p>`, one paragraph of an HTML error page. */
  function Paragraph(a: string): string
  {
    "<p>" + a + "</p>"
  }

  /** A paragraph keeps its text and loses its markup. */
  lemma StripParagraph(a: string, rest: string)
    requires '<' !in a
    ensures StripTags(Paragraph(a) + rest) == a + StripTags(rest)
  {
    var p, q := "<p>", "</p>";
    var tail := q + rest;
    var body := a + tail;
    assert Paragraph(a) + rest == p + body;
    StripTagsDrops(p, body);
    StripTagsPlain(a, tail);
    StripTagsDrops(q, rest);
  }

  /** A paragraph followed by a newline keeps its text and the newline. */
  lemma StripParagraphLine(a: string, rest: string)
    requires '<' !in a
    ensures StripTags(Paragraph(a) + "\n" + rest) == a + "\n" + StripTags(rest)
  {
    assert Paragraph(a) + "\n" + rest == Paragraph(a) + ("\n" + rest);
    StripParagraph(a, "\n" + rest);
    StripTagsKeeps('\n', rest);
    assert a + ("\n" + StripTags(rest)) == a + "\n" + StripTags(rest);
  }

  /** The markup of three paragraphs on three lines is dropped, keeping the three lines. */
  lemma ParagraphsStripped(a: string, b: string, c: string)
    requires PlainLine(a) && PlainLine(b) && PlainLine(c)
    ensures StripTags(Paragraph(a) + "\n" + Paragraph(b) + "\n" + Paragraph(c)) == a + "\n" + b + "\n" + c
  {
    var pc := Paragraph(c);
    var tail := Paragraph(b) + "\n" + pc;
    StripParagraph(c, []);
    assert pc + [] == pc;
    StripParagraphLine(b, pc);
    StripParagraphLine(a, tail);
    assert Paragraph(a) + "\n" + Paragraph(b) + "\n" + pc == Paragraph(a) + "\n" + tail;
    assert a + "\n" + (b + "\n" + c) == a + "\n" + b + "\n" + c;
  }

  /** Three plain lines joined by single newlines contain no run of newlines. */
  lemma ThreeLinesNoRun(a: string, b: string, c: string)
    requires PlainLine(a) && PlainLine(b) && PlainLine(c)
    ensures NoDoubleNewline(a + "\n" + b + "\n" + c)
  {
    var s := a + "\n" + b + "\n" + c;
    forall i | 0 <= i < |s| - 1 ensures !(s[i] == '\n' && s[i + 1] == '\n') {
      if i < |a| {
        assert s[i] == a[i];
      } else if i == |a| {
        assert s[i + 1] == b[0];
      } else if i < |a| + 1 + |b| {
        assert s[i] == b[i - |a| - 1];
      } else if i == |a| + 1 + |b| {
        assert s[i + 1] == c[0];
      } else {
        assert s[i] == c[i - |a| - |b| - 2];
      }
    }
  }

  /** Three paragraphs on three lines clean to their three texts, one per line. */
  lemma ParagraphsCleaned(a: string, b: string, c: string)
    requires PlainLine(a) && PlainLine(b) && PlainLine(c)
    ensures Cleaned(Paragraph(a) + "\n" + Paragraph(b) + "\n" + Paragraph(c)) == a + "\n" + b + "\n" + c
  {
    var line := a + "\n" + b + "\n" + c;
    ParagraphsStripped(a, b, c);
    ThreeLinesNoRun(a, b, c);
    assert line[0] == a[0] && line[|line| - 1] == c[|c| - 1];
    CleanedPlain(Paragraph(a) + "\n" + Paragraph(b) + "\n" + Paragraph(c), line);
  }

  /** A body whose stripped text has no newline run and no padding is cleaned to that text. */
  lemma CleanedPlain(text: string, line: string)
    requires StripTags(text) == line && NoDoubleNewline(line)
    requires line == [] || (!IsWhitespace(line[0]) && !IsWhitespace(line[|line| - 1]))
    ensures Cleaned(text) == line
  {
    CollapseFirstNoRun(line);
    TrimUnique([], line, []);
    assert [] + line + [] == line;
  }

  lemma ThreeLinesSplit(a: string, b: string, c: string)
    requires '\n' !in a && '\n' !in b && '\n' !in c
    ensures Split(a + "\n" + b + "\n" + c, '\n') == [a, b, c]
  {
    var parts := [a, b, c];
    assert parts[1..] == [b, c] && parts[1..][1..] == [c];
    assert Join([c], "\n") == c;
    assert Join([b, c], "\n") == b + "\n" + c;
    assert a + "\n" + (b + "\n" + c) == a + "\n" + b + "\n" + c;
    assert Join(parts, ['\n']) == a + "\n" + b + "\n" + c;
    SplitJoin(parts, '\n');
  }

  lemma DedupRepeat(a: string, b: string)
    requires a != b
    ensures Dedup([a, a, b]) == [a, b]
  {
    assert [a][..0] == [];
    assert Dedup([a]) == [a];
    assert [a, a][..1] == [a];
    assert Dedup([a, a]) == [a];
    assert [a, a, b][..2] == [a, a];
  }

  /**
    A body of three paragraphs whose first two repeat yields the two distinct
    lines joined by a space; `"<p>A</p>\n<p>A</p>\n<p>B</p>"` gives `"A B"`.
   */
  lemma RepeatedParagraphs(a: string, b: string)
    requires PlainLine(a) && PlainLine(b) && a != b
    ensures FallbackMessage(Paragraph(a) + "\n" + Paragraph(a) + "\n" + Paragraph(b)) == a + " " + b
  {
    var text := Paragraph(a) + "\n" + Paragraph(a) + "\n" + Paragraph(b);
    ParagraphsCleaned(a, a, b);
    assert '\n' !in a && '\n' !in b;
    ThreeLinesSplit(a, a, b);
    assert Lines(text) == [a, a, b];
    DedupRepeat(a, b);
    assert Join([a, b], " ") == a + " " + b;
  }

  /**
    The error page `<p>A</p>`, `<p>A</p>`, `<p>B</p>` on three lines becomes
    `"A B"`. The texts are bound by the precondition rather than written inline,
    so that the solver does not evaluate the whole pipeline on a literal.
   */
  lemma FallbackExample(a: string, b: string)
    requires a == "A" && b == "B"
    ensures FallbackMessage(Paragraph(a) + "\n" + Paragraph(a) + "\n" + Paragraph(b)) == a + " " + b
  {
    assert PlainLine(a) && PlainLine(b);
    RepeatedParagraphs(a, b);
  }
}
