// Appending a section to a text and to its normalized form: exactly when the two
// results are one text (server/markdown-document.js:55-61, 80-88, 100-113).
module MarkdownAppends {
  import opened Text
  import opened Wrappers
  import opened MarkdownDocument
  import opened MarkdownBullets
  import opened MarkdownRewrites

  // What the end of a text is trimmed of.
  function Tail(s: string): string {
    s[|TrimEnd(s)|..]
  }

  predicate AllNewlines(s: string) {
    forall i | 0 <= i < |s| :: s[i] == '\n'
  }

  // The text is not empty, and the white space at its end is newlines.
  predicate NewlinesAtEnd(content: string) {
    content != "" && AllNewlines(Tail(NormalizeNewline(content)))
  }

  // ------------------------------------------------------- the normalizers

  lemma NormalizeCons(c: char, t: string)
    ensures c != '\r' ==> NormalizeNewline([c] + t) == [c] + NormalizeNewline(t)
    ensures c == '\r' && (t == "" || t[0] != '\n') ==> NormalizeNewline([c] + t) == ['\n'] + NormalizeNewline(t)
    ensures c == '\r' && t != "" && t[0] == '\n' ==> NormalizeNewline([c] + t) == ['\n'] + NormalizeNewline(t[1..])
  {
    assert ([c] + t)[1..] == t;
    if t != "" { assert ([c] + t)[2..] == t[1..]; }
  }

  lemma CollapseNext(c: char, t: string, run: nat)
    ensures c != '\n' ==> CollapseRuns([c] + t, run) == [c] + CollapseRuns(t, 0)
    ensures c == '\n' && run < 2 ==> CollapseRuns([c] + t, run) == ['\n'] + CollapseRuns(t, run + 1)
    ensures c == '\n' && run >= 2 ==> CollapseRuns([c] + t, run) == CollapseRuns(t, run)
  {
    assert ([c] + t)[1..] == t;
  }

  function Run(run: nat): nat {
    if run >= 2 then run else run + 1
  }

  // Runs that were collapsed before the newlines were normalized.
  lemma {:induction false} CollapseFirst(s: string, r1: nat, r2: nat)
    requires r1 <= r2
    ensures CollapseRuns(NormalizeNewline(CollapseRuns(s, r1)), r2) == CollapseRuns(NormalizeNewline(s), r2)
    decreases 2 * |s|
  {
    if s != "" {
      var c, t := s[0], s[1..];
      assert s == [c] + t;
      hide CollapseRuns, NormalizeNewline;
      CollapseNext(c, t, r1);
      NormalizeCons(c, t);
      if c == '\n' {
        CollapseFirst(t, Run(r1), Run(r2));
        NormalizeCons(c, CollapseRuns(t, Run(r1)));
        CollapseNext(c, NormalizeNewline(CollapseRuns(t, Run(r1))), r2);
        CollapseNext(c, NormalizeNewline(t), r2);
      } else if c == '\r' {
        ReturnFirst(t, r2);
      } else {
        CollapseFirst(t, 0, 0);
        NormalizeCons(c, CollapseRuns(t, 0));
        CollapseNext(c, NormalizeNewline(CollapseRuns(t, 0)), r2);
        CollapseNext(c, NormalizeNewline(t), r2);
      }
    }
  }

  // The same after a carriage return.
  lemma {:induction false} ReturnFirst(t: string, run: nat)
    ensures CollapseRuns(NormalizeNewline(['\r'] + CollapseRuns(t, 0)), run) ==
            CollapseRuns(NormalizeNewline(['\r'] + t), run)
    decreases 2 * |t| + 1
  {
    hide CollapseRuns, NormalizeNewline;
    var a := CollapseRuns(t, 0);
    CollapseEmpty(0);
    NormalizeCons('\r', t);
    NormalizeCons('\r', a);
    if t != "" {
      assert t == [t[0]] + t[1..];
      CollapseNext(t[0], t[1..], 0);
    }
    if t != "" && t[0] == '\n' {
      CollapseFirst(t[1..], 1, Run(run));
      assert a[1..] == CollapseRuns(t[1..], 1);
      CollapseNext('\n', NormalizeNewline(a[1..]), run);
      CollapseNext('\n', NormalizeNewline(t[1..]), run);
    } else {
      CollapseFirst(t, 0, Run(run));
      CollapseNext('\n', NormalizeNewline(a), run);
      CollapseNext('\n', NormalizeNewline(t), run);
    }
  }

  lemma CollapseEmpty(run: nat)
    ensures CollapseRuns("", run) == "" && NormalizeNewline("") == ""
  {
  }

  // ------------------------------------------------------ a text and its end

  lemma {:induction false} CollapseAfterText(a: string, b: string, run: nat)
    requires a != "" && a[|a| - 1] != '\n'
    ensures CollapseRuns(a + b, run) == CollapseRuns(a, run) + CollapseRuns(b, 0)
    ensures CollapseRuns(a, run) != "" && CollapseRuns(a, run)[|CollapseRuns(a, run)| - 1] == a[|a| - 1]
    decreases |a|
  {
    var c, t := a[0], a[1..];
    hide CollapseRuns;
    assert a == [c] + t && a + b == [c] + (t + b);
    CollapseNext(c, t, run);
    CollapseNext(c, t + b, run);
    CollapseEmpty(0);
    if t == "" {
      assert t + b == b;
    } else {
      CollapseAfterText(t, b, if c == '\n' then Run(run) else 0);
    }
  }

  lemma {:induction false} CollapseBeforeText(a: string, b: string, run: nat)
    requires b != "" && b[0] != '\n'
    ensures CollapseRuns(a + b, run) == CollapseRuns(a, run) + CollapseRuns(b, 0)
    decreases |a|
  {
    hide CollapseRuns;
    CollapseEmpty(run);
    if a == "" {
      assert a + b == b && b == [b[0]] + b[1..];
      CollapseNext(b[0], b[1..], run);
      CollapseNext(b[0], b[1..], 0);
    } else {
      var c, t := a[0], a[1..];
      assert a == [c] + t && a + b == [c] + (t + b);
      CollapseNext(c, t, run);
      CollapseNext(c, t + b, run);
      CollapseBeforeText(t, b, if c == '\n' then Run(run) else 0);
    }
  }

  lemma {:induction false} NormalizeAfterText(a: string, b: string)
    requires a == "" || a[|a| - 1] != '\r'
    ensures NormalizeNewline(a + b) == NormalizeNewline(a) + NormalizeNewline(b)
    ensures a != "" && !IsSpace(a[|a| - 1]) ==>
              NormalizeNewline(a) != "" && NormalizeNewline(a)[|NormalizeNewline(a)| - 1] == a[|a| - 1]
    decreases |a|
  {
    hide NormalizeNewline;
    CollapseEmpty(0);
    if a == "" {
      assert a + b == b;
    } else {
      var c, t := a[0], a[1..];
      assert a == [c] + t && a + b == [c] + (t + b);
      NormalizeCons(c, t);
      NormalizeCons(c, t + b);
      if c == '\r' && t[0] == '\n' {
        assert (t + b)[1..] == t[1..] + b;
        NormalizeAfterText(t[1..], b);
      } else {
        NormalizeAfterText(t, b);
      }
    }
  }

  lemma {:induction false} NormalizeSpace(s: string)
    requires AllSpace(s)
    ensures AllSpace(NormalizeNewline(s))
    decreases |s|
  {
    hide NormalizeNewline;
    CollapseEmpty(0);
    if s != "" {
      assert s == [s[0]] + s[1..];
      NormalizeCons(s[0], s[1..]);
      NormalizeSpace(s[1..]);
      if |s| > 1 { NormalizeSpace(s[2..]); }
    }
  }

  lemma {:induction false} TailIsSpace(s: string)
    ensures AllSpace(Tail(s)) && s == TrimEnd(s) + Tail(s)
    ensures TrimEnd(s) != "" ==> !IsSpace(TrimEnd(s)[|TrimEnd(s)| - 1])
  {
    if s != "" && IsSpace(s[|s| - 1]) {
      var t := s[..|s| - 1];
      TailIsSpace(t);
      assert Tail(s) == Tail(t) + [s[|s| - 1]];
    }
  }

  lemma {:induction false} TrimEndSpace(s: string)
    requires AllSpace(s)
    ensures TrimEnd(s) == ""
  {
    if s != "" { TrimEndSpace(s[..|s| - 1]); }
  }

  lemma TrimEndConcat(core: string, tail: string)
    requires AllSpace(tail) && (core != "" ==> !IsSpace(core[|core| - 1]))
    ensures TrimEnd(core + tail) == core
  {
    TrimEndSpace(tail);
    if core == "" { assert core + tail == tail; } else { TrimEndOfTail(core, tail); }
  }

  // The text that these runs and this end stand for, with so many newlines.
  function Ended(core: string, newlines: string): string {
    (if core == "" then "" else CollapseRuns(core, 0)) + newlines
  }

  lemma NormalizedIs(core: string, tail: string)
    requires AllSpace(tail) && (core != "" ==> !IsSpace(core[|core| - 1]))
    ensures EnsureTrailingNewline(core + tail) == Ended(core, "\n")
  {
    var c := CollapseRuns(tail, 0);
    assert forall i | 0 <= i < |c| :: c[i] in c && c[i] in tail;
    if core == "" {
      TrimEndSpace(c);
      assert core + tail == tail;
    } else {
      CollapseAfterText(core, tail, 0);
      TrimEndConcat(CollapseRuns(core, 0), c);
    }
  }

  lemma EndedRuns(core: string)
    requires core != "" ==> !IsSpace(core[|core| - 1])
    ensures CollapseRuns(core + "\n", 0) == Ended(core, "\n")
    ensures CollapseRuns(core + "\n\n", 0) == Ended(core, "\n\n")
    ensures core == "" <==> Ended(core, "\n") == "\n"
  {
    NewlineRuns();
    if core == "" {
      assert core + "\n" == "\n" && core + "\n\n" == "\n\n";
    } else {
      CollapseAfterText(core, "\n", 0);
      CollapseAfterText(core, "\n\n", 0);
    }
  }

  lemma NewlineRuns()
    ensures CollapseRuns("\n", 0) == "\n" && CollapseRuns("\n\n", 0) == "\n\n"
  {
    assert "\n"[1..] == "" && "\n\n"[1..] == "\n";
  }

  // What the normalized text is read as, in terms of the text itself.
  lemma ReadNormalized(content: string)
    ensures var s, t := NormalizeNewline(content), NormalizeNewline(EnsureTrailingNewline(content));
            && t != "" && t[|t| - 1] == '\n' && CollapseRuns(t, 0) == EnsureTrailingNewline(s)
            && CollapseRuns(t + "\n", 0) == Ended(TrimEnd(s), "\n\n")
  {
    var s, c := NormalizeNewline(content), CollapseRuns(content, 0);
    var core, tail := TrimEnd(c), Tail(c);
    var p, q := NormalizeNewline(core), NormalizeNewline(tail);
    CollapseFirst(content, 0, 0);
    TailIsSpace(c);
    TailIsSpace(s);
    NormalizeAfterText(core, tail);
    NormalizeAfterText(core, "\n");
    NormalizeSpace(tail);
    assert NormalizeNewline("\n") == "\n" by { NormalizeNewlineFixed("\n"); }
    CollapseEmpty(0);
    hide NormalizeNewline, CollapseRuns, TrimEnd, Tail, Ended, AllSpace;
    NormalizedIs(p, q);
    NormalizedIs(TrimEnd(s), Tail(s));
    EndedRuns(p);
    EndedRuns(TrimEnd(s));
    assert p + "\n" + "\n" == p + "\n\n";
    SameEnded(p, TrimEnd(s));
  }

  lemma SameEnded(a: string, b: string)
    requires Ended(a, "\n") == Ended(b, "\n")
    ensures Ended(a, "\n\n") == Ended(b, "\n\n")
  {
    hide CollapseRuns;
    var x := if a == "" then "" else CollapseRuns(a, 0);
    var y := if b == "" then "" else CollapseRuns(b, 0);
    assert (x + "\n")[..|x|] == x && (y + "\n")[..|y|] == y;
  }

  // The line break before an appended section, and the blank line if it needs one.
  function Separator(text: string): string {
    var lines := Split(text);
    if Blank(lines[|lines| - 1]) then "\n" else "\n\n"
  }

  lemma SeparatorOf(text: string)
    ensures Separator(text) in ["\n", "\n\n"]
    ensures text == "" || text[|text| - 1] == '\n' ==> Separator(text) == "\n"
    ensures text != "" && !IsSpace(text[|text| - 1]) ==> Separator(text) == "\n\n"
  {
    if text == "" {
      SplitEmpty();
    } else {
      var t, c := text[..|text| - 1], text[|text| - 1];
      assert text == t + [c];
      SplitAppend(t, c);
      if !IsSpace(c) {
        var l := Split(t)[|Split(t)| - 1] + [c];
        NotBlankEnd(l);
      }
    }
  }

  // The separator follows newlines alone exactly when it ends up as one blank line.
  lemma SeparatorIff(text: string)
    ensures CollapseRuns(text + Separator(text), 0) == Ended(TrimEnd(text), "\n\n")
            <==> text != "" && AllNewlines(Tail(text))
  {
    var core, tail, sep := TrimEnd(text), Tail(text), Separator(text);
    TailIsSpace(text);
    SeparatorOf(text);
    hide Separator, TrimEnd, Tail, AllNewlines;
    assert text + sep == core + (tail + sep);
    EndedTail(core, tail + sep);
    TailRuns(core, tail, sep);
  }

  lemma TailRuns(core: string, tail: string, sep: string)
    requires AllSpace(tail) && (core != "" ==> !IsSpace(core[|core| - 1])) && sep in ["\n", "\n\n"]
    requires var text := core + tail;
             && (text == "" || text[|text| - 1] == '\n' ==> sep == "\n")
             && (text != "" && !IsSpace(text[|text| - 1]) ==> sep == "\n\n")
    ensures CollapseRuns(tail + sep, 0) == "\n\n" <==> core + tail != "" && AllNewlines(tail)
  {
    NewlineRuns();
    hide CollapseRuns;
    if tail == "" {
      assert tail + sep == sep && core + tail == core;
    } else if AllNewlines(tail) {
      assert (core + tail)[|core + tail| - 1] == tail[|tail| - 1];
      NewlinesCollapse(tail + sep);
    } else {
      var i :| 0 <= i < |tail| && tail[i] != '\n';
      assert (tail + sep)[i] == tail[i] && tail[i] in tail + sep;
      CollapseKeeps(tail + sep, tail[i], 0);
    }
  }

  lemma EndedTail(core: string, tail: string)
    requires core != "" ==> !IsSpace(core[|core| - 1])
    ensures CollapseRuns(core + tail, 0) == Ended(core, "\n\n") <==> CollapseRuns(tail, 0) == "\n\n"
  {
    if core == "" {
      assert core + tail == tail;
    } else {
      CollapseAfterText(core, tail, 0);
      var a, b := CollapseRuns(core, 0), CollapseRuns(tail, 0);
      hide CollapseRuns;
      assert (a + b)[|a|..] == b && (a + "\n\n")[|a|..] == "\n\n";
    }
  }

  lemma {:induction false} CollapseKeeps(s: string, c: char, run: nat)
    requires c in s && c != '\n'
    ensures c in CollapseRuns(s, run)
  {
    if s[0] != c {
      CollapseKeeps(s[1..], c, if s[0] == '\n' then Run(run) else 0);
    }
  }

  lemma NewlinesCollapse(s: string)
    requires |s| >= 2 && AllNewlines(s)
    ensures CollapseRuns(s, 0) == "\n\n"
  {
    var t := s[2..];
    assert s[0] == s[1] == '\n' && s == ['\n'] + (['\n'] + t);
    hide CollapseRuns;
    CollapseNext('\n', ['\n'] + t, 0);
    CollapseNext('\n', t, 1);
    NewlinesGo(t);
  }

  lemma {:induction false} NewlinesGo(s: string)
    requires AllNewlines(s)
    ensures CollapseRuns(s, 2) == ""
  {
    if s != "" { NewlinesGo(s[1..]); }
  }

  // ------------------------------------------------------ the appended section

  lemma JoinAppended(text: string, headingLine: string, body: seq<string>)
    requires headingLine != ""
    ensures Join(AppendSection(Split(text), headingLine, body)) ==
            text + Separator(text) + Join([headingLine] + body)
  {
    var lines, rest := Split(text), [headingLine] + body;
    var gap := if !Blank(lines[|lines| - 1]) then [""] else [];
    JoinSplit(text);
    hide Split, Blank, Join;
    assert AppendSection(lines, headingLine, body) == lines + gap + rest;
    JoinConcat(lines + gap, rest);
    if gap != [] {
      JoinConcat(lines, [""]);
      JoinOne();
      assert text + "\n" + "" + "\n" == text + "\n\n";
    } else {
      assert lines + gap == lines;
    }
  }

  lemma JoinOne()
    ensures Join([""]) == ""
  {
  }

  // An appended section is what comes after the separator, trimmed at its end.
  lemma RenderAppended(text: string, headingLine: string, body: seq<string>)
    requires headingLine != "" && !IsSpace(headingLine[0])
    ensures Render(AppendSection(Split(text), headingLine, body)) ==
            CollapseRuns(text + Separator(text), 0) + EnsureTrailingNewline(Join([headingLine] + body))
  {
    JoinAppended(text, headingLine, body);
    var a, b := text + Separator(text), Join([headingLine] + body);
    JoinHead(headingLine, body);
    hide Separator, Join, CollapseRuns, TrimEnd, Split;
    CollapseBeforeText(a, b, 0);
    assert b == [b[0]] + b[1..];
    CollapseNext(b[0], b[1..], 0);
    var x, y := CollapseRuns(a, 0), CollapseRuns(b[1..], 0);
    assert x + ([b[0]] + y) == (x + [b[0]]) + y;
    TrimEndOfTail(x + [b[0]], y);
    TrimEndOfTail([b[0]], y);
    assert (x + [b[0]]) + TrimEnd(y) == x + ([b[0]] + TrimEnd(y));
  }

  lemma JoinHead(headingLine: string, body: seq<string>)
    requires headingLine != ""
    ensures Join([headingLine] + body) != "" && Join([headingLine] + body)[0] == headingLine[0]
  {
    if body == [] { assert [headingLine] + body == [headingLine]; }
  }

  // A section appended to a text and to its normalized form gives one text exactly
  // when the text is not empty and the white space at its end is newlines.
  lemma AppendAgreesIff(content: string, headingLine: string, body: seq<string>)
    requires headingLine != "" && !IsSpace(headingLine[0])
    ensures Render(AppendSection(DocumentLines(content), headingLine, body)) ==
            Render(AppendSection(DocumentLines(EnsureTrailingNewline(content)), headingLine, body))
            <==> NewlinesAtEnd(content)
  {
    var s, t := NormalizeNewline(content), NormalizeNewline(EnsureTrailingNewline(content));
    assert s != "" <==> content != "";
    ReadNormalized(content);
    SeparatorOf(t);
    SeparatorIff(s);
    hide Split, Separator, EnsureTrailingNewline, NormalizeNewline, CollapseRuns, Join, TrimEnd, Tail, AllNewlines;
    RenderAppended(s, headingLine, body);
    RenderAppended(t, headingLine, body);
    SamePrefix(CollapseRuns(s + Separator(s), 0), CollapseRuns(t + "\n", 0),
               EnsureTrailingNewline(Join([headingLine] + body)));
  }

  lemma SamePrefix(a: string, b: string, rest: string)
    ensures a + rest == b + rest <==> a == b
  {
    if a + rest == b + rest { assert (a + rest)[..|a|] == a && (b + rest)[..|b|] == b; }
  }

  // A text and its normalized form lack the same sections.
  lemma NormalizedLacks(content: string, aliases: seq<string>)
    requires FindHeading(DocumentLines(content), aliases) == |DocumentLines(content)|
    ensures var lines := DocumentLines(EnsureTrailingNewline(content)); FindHeading(lines, aliases) == |lines|
  {
    var s, t := NormalizeNewline(content), NormalizeNewline(EnsureTrailingNewline(content));
    ReadNormalized(content);
    CollapseKeepsNonBlank(t, 0);
    NormalizerKeepsNonBlank(s);
    hide Split, EnsureTrailingNewline, NormalizeNewline, CollapseRuns, FindHeading, HeadingMatches, NonBlank, Blank,
         StripLast;
    assert NonBlank(Split(t)) == StripLast(NonBlank(Split(s)));
    NoHeadingView(Split(s), aliases);
    FindHeadingSpec(NonBlank(Split(s)), aliases);
    StrippedLacks(NonBlank(Split(s)), aliases);
    forall l | l in Split(t) ensures !HeadingMatches(l, aliases) {
      if HeadingMatches(l, aliases) {
        HeadingNotBlank(l, aliases);
        NonBlankSound(Split(t));
      }
    }
    FindHeadingSpec(Split(t), aliases);
  }

  lemma StrippedLacks(lines: seq<string>, aliases: seq<string>)
    requires NoHeading(lines, aliases)
    ensures NoHeading(StripLast(lines), aliases)
  {
    if lines != [] {
      var last := lines[|lines| - 1];
      TrimOfTrimEnd(last);
      hide Trim, TrimEnd;
      assert last in lines && !HeadingMatches(TrimEnd(last), aliases);
      hide HeadingMatches;
    }
  }
}
