// What an exported consensus is read back as by the splitter of
// server/knowledge-space.js, and exactly when that is the consensus itself.
module KnowledgeMarkdownRoundTrip {
  import opened Text
  import opened Wrappers
  import opened KnowledgeMarkdown

  // ----------------------------------------------------------- normal forms

  // A title that is one trimmed line without escapes.
  ghost predicate NormalTitle(title: string) {
    title != "" && Trimmed(title) && NoTerminator(title) && Decode(title) == title
  }

  // No line would open a section, given whether the first one is inside a fence.
  predicate Quiet(lines: seq<string>, inCode: bool) {
    lines == [] ||
    ((inCode || Heading(lines[0], 2).None?) && Quiet(lines[1..], inCode != IsFence(lines[0])))
  }

  predicate CodeAfter(lines: seq<string>, inCode: bool) {
    if lines == [] then inCode else CodeAfter(lines[1..], inCode != IsFence(lines[0]))
  }

  // A body that is trimmed and does not start with its own heading.
  ghost predicate NormalBody(body: string, level: nat) {
    Trimmed(body) && '\r' !in body && StripHeading(body, level) == body
  }

  // No heading outside a fence, and every fence closed.
  predicate Sealed(body: string) {
    Quiet(Split(body), false) && !CodeAfter(Split(body), false)
  }

  // The last part may leave a fence open.
  predicate SealedSections(sections: seq<Section>) {
    sections == [] ||
    (&& Quiet(Split(sections[0].markdown), false)
     && (|sections| > 1 ==> Sealed(sections[0].markdown))
     && SealedSections(sections[1..]))
  }

  predicate SealedConsensus(c: Consensus) {
    && Quiet(Split(c.markdown), false)
    && (c.sections != [] ==> Sealed(c.markdown))
    && SealedSections(c.sections)
  }

  // Titles and bodies that the exporter writes as they are.
  ghost predicate Wellformed(c: Consensus) {
    && NormalTitle(c.title) && NormalBody(c.markdown, 1) && StripLinks(c.markdown) == c.markdown
    && (forall i | 0 <= i < |c.sections| :: NormalTitle(c.sections[i].title) && NormalBody(c.sections[i].markdown, 2))
  }

  // ------------------------------------------------- the lines of an export

  function PieceLines(heading: string, body: string): seq<string> {
    [heading] + (if body == "" then [] else [""] + Split(body))
  }

  function PieceText(heading: string, body: string): string {
    heading + (if body == "" then "" else "\n\n" + body)
  }

  function SectionLines(sections: seq<Section>): seq<string> {
    if sections == [] then []
    else SectionLines(sections[..|sections| - 1]) + [""] +
         PieceLines("## " + sections[|sections| - 1].title, sections[|sections| - 1].markdown)
  }

  // The lines after the root's piece: a blank one before each section's and one at the end.
  function Tail(sections: seq<Section>): seq<string> {
    [""] + (if sections == [] then []
            else PieceLines("## " + sections[0].title, sections[0].markdown) + Tail(sections[1..]))
  }

  function ExportLines(c: Consensus): seq<string> {
    PieceLines("# " + c.title, c.markdown) + Tail(c.sections)
  }

  lemma {:induction false} SectionLinesAreTail(sections: seq<Section>, n: nat)
    requires n <= |sections|
    ensures SectionLines(sections[..n]) + Tail(sections[n..]) == Tail(sections)
    decreases n
  {
    hide PieceLines;
    if n == 0 {
      assert sections[..0] == [] && sections[0..] == sections && [] + Tail(sections) == Tail(sections);
    } else {
      SectionLinesAreTail(sections, n - 1);
      assert sections[..n][..n - 1] == sections[..n - 1];
      assert sections[n - 1..][1..] == sections[n..];
      var before, piece := SectionLines(sections[..n - 1]),
          PieceLines("## " + sections[n - 1].title, sections[n - 1].markdown);
      assert before + [""] + piece + Tail(sections[n..]) == before + ([""] + (piece + Tail(sections[n..])));
    }
  }

  lemma {:induction false} KeptConcat(a: seq<string>, b: seq<string>)
    ensures Kept(a + b) == Kept(a) + Kept(b)
  {
    hide Trim;
    if a == [] {
      assert a + b == b;
    } else {
      assert (a + b)[1..] == a[1..] + b;
      KeptConcat(a[1..], b);
    }
  }

  lemma {:induction false} JoinWithConcat(a: seq<string>, b: seq<string>, separator: string)
    requires a != [] && b != []
    ensures JoinWith(a + b, separator) == JoinWith(a, separator) + separator + JoinWith(b, separator)
  {
    assert (a + b)[1..] == a[1..] + b;
    if |a| > 1 { JoinWithConcat(a[1..], b, separator); }
    assert |a| == 1 ==> a[1..] + b == b;
  }

  lemma HeadingIsTrimmed(marks: string, title: string)
    requires marks != "" && !IsSpace(marks[0]) && title != "" && Trimmed(title)
    ensures Trimmed(marks + title) && Trim(marks + title) == marks + title
  {
    var h := marks + title;
    assert h[0] == marks[0] && h[|h| - 1] == title[|title| - 1];
    TrimFixed(h);
  }

  lemma KeptPiece(heading: string, body: string)
    requires heading != "" && Trimmed(heading) && Trimmed(body)
    ensures Kept([heading] + Optional(body)) == [heading] + Optional(body)
  {
    TrimFixed(heading);
    TrimFixed(body);
    hide Trim, Trimmed;
    if body != "" { assert [body][1..] == []; }
    assert Kept(Optional(body)) == Optional(body);
    var chunks := [heading] + Optional(body);
    assert chunks[0] == heading && chunks[1..] == Optional(body);
  }

  lemma SplitPiece(heading: string, body: string)
    requires '\n' !in heading
    ensures Split(PieceText(heading, body)) == PieceLines(heading, body)
  {
    SplitHeading(heading);
    if body != "" {
      hide Split;
      ChunkAppends(heading, body);
      assert heading + ("\n\n" + body) == heading + "\n\n" + body;
      Assoc([heading], [""], Split(body));
    } else {
      assert PieceText(heading, body) == heading;
    }
  }

  lemma PieceOfChunks(heading: string, body: string)
    requires heading != "" && '\n' !in heading && Trimmed(heading) && Trimmed(body)
    ensures var kept := Kept([heading] + Optional(body));
            && kept != [] && JoinWith(kept, "\n\n") == PieceText(heading, body)
            && Split(PieceText(heading, body)) == PieceLines(heading, body)
  {
    KeptPiece(heading, body);
    SplitPiece(heading, body);
    hide Kept, Split, PieceLines, Trimmed;
    var chunks := [heading] + Optional(body);
    if body != "" { assert chunks[1..] == [body]; }
    assert heading + "\n\n" + body == heading + ("\n\n" + body);
  }

  lemma SplitHeading(heading: string)
    requires '\n' !in heading
    ensures Split(heading) == [heading]
  {
    SplitPrepend(heading, "");
    assert heading + "" == heading;
  }

  lemma NormalSectionChunks(s: Section)
    requires NormalTitle(s.title) && NormalBody(s.markdown, 2)
    ensures SectionChunks(s) == ["## " + s.title] + Optional(s.markdown)
    ensures Trimmed("## " + s.title) && '\n' !in "## " + s.title
  {
    HeadingIsTrimmed("## ", s.title);
    hide StripHeading, Decode, Trim;
    NoNewline("## ", s.title);
  }

  lemma NormalRootChunks(c: Consensus)
    requires Wellformed(c)
    ensures RootChunks(c.title, c.markdown) == ["# " + c.title] + Optional(c.markdown)
    ensures Trimmed("# " + c.title) && '\n' !in "# " + c.title
  {
    HeadingIsTrimmed("# ", c.title);
    hide StripHeading, StripLinks, Decode, Trim;
    NoNewline("# ", c.title);
  }

  lemma NoNewline(marks: string, title: string)
    requires '\n' !in marks && NoTerminator(title)
    ensures '\n' !in marks + title
  {
  }

  // Splitting the exported text gives the pieces' lines, a blank one between.
  lemma {:induction false} ExportSplits(c: Consensus)
    requires Wellformed(c)
    ensures Split(Export(c)) == ExportLines(c)
  {
    hide Kept, StripHeading, StripLinks, Decode, Trim, JoinWith, Split, NormalTitle, NormalBody;
    ChunksSplit(c, |c.sections|);
    assert c.sections[..|c.sections|] == c.sections;
    var text := JoinWith(Kept(RootChunks(c.title, c.markdown) + AllSectionChunks(c.sections)), "\n\n");
    SplitSnocNewline(text);
    SectionLinesAreTail(c.sections, |c.sections|);
    assert c.sections[|c.sections|..] == [] && Tail([]) == [""];
    hide PieceLines, SectionLines, Tail;
    Assoc(PieceLines("# " + c.title, c.markdown), SectionLines(c.sections), [""]);
  }

  lemma {:induction false} ChunksSplit(c: Consensus, n: nat)
    requires Wellformed(c) && n <= |c.sections|
    ensures var kept := Kept(RootChunks(c.title, c.markdown) + AllSectionChunks(c.sections[..n]));
            kept != [] && Split(JoinWith(kept, "\n\n")) ==
              PieceLines("# " + c.title, c.markdown) + SectionLines(c.sections[..n])
    decreases n
  {
    var root := RootChunks(c.title, c.markdown);
    hide Kept, StripHeading, StripLinks, Decode, Trim, JoinWith, Split, NormalTitle, PieceLines, PieceText, RootChunks,
         SectionChunks, Trimmed;
    if n == 0 {
      NormalRootChunks(c);
      assert AllSectionChunks(c.sections[..0]) == [] && root + [] == root;
      PieceOfChunks("# " + c.title, c.markdown);
    } else {
      ChunksSplit(c, n - 1);
      var s := c.sections[n - 1];
      assert c.sections[..n][..n - 1] == c.sections[..n - 1];
      NormalSectionChunks(s);
      PieceOfChunks("## " + s.title, s.markdown);
      var a, b := root + AllSectionChunks(c.sections[..n - 1]), SectionChunks(s);
      assert root + AllSectionChunks(c.sections[..n]) == a + b;
      KeptConcat(a, b);
      JoinWithConcat(Kept(a), Kept(b), "\n\n");
      ChunkAppends(JoinWith(Kept(a), "\n\n"), JoinWith(Kept(b), "\n\n"));
    }
  }

  lemma ChunkAppends(a: string, b: string)
    ensures Split(a + "\n\n" + b) == Split(a) + [""] + Split(b)
  {
    SplitConcat(a, "\n" + b);
    SplitConcat("", b);
    SplitEmpty();
    hide Split;
    assert a + "\n\n" + b == a + "\n" + ("\n" + b) && "" + "\n" + b == "\n" + b;
    Assoc(Split(a), [""], Split(b));
  }

  // ---------------------------------------------------------- reading it back

  function Marked(level: nat, title: string): string {
    Marks(level) + " " + title
  }

  lemma MarkedIs(title: string)
    ensures Marked(1, title) == "# " + title && Marked(2, title) == "## " + title
  {
    assert Marks(1) == "#" && Marks(2) == "##" by { assert Marks(0) == ""; }
    assert "#" + " " == "# " && "##" + " " == "## ";
  }

  lemma HeadingOfMarked(level: nat, title: string)
    requires NormalTitle(title)
    ensures Heading(Marked(level, title), level) == Some(title)
    ensures level == 2 ==> Heading(Marked(level, title), 1) == None
  {
    var line := Marked(level, title);
    assert line[level..] == " " + title && (" " + title)[1..] == title;
    TrimFixed(title);
    assert TrimStart(" " + title) == title;
    assert level == 2 ==> line[1] == '#';
    assert line[..level] == Marks(level);
    hide Trim, TrimStart, Decode;
  }

  lemma {:induction false} DotRunOf(title: string, w: string)
    requires NoTerminator(title) && (w == "" || w[0] == '\n')
    ensures DotRun(title + w) == |title|
  {
    if title != "" {
      assert (title + w)[1..] == title[1..] + w;
      DotRunOf(title[1..], w);
    } else {
      assert title + w == w;
    }
  }

  lemma {:induction false} TrimEndHead(w: string)
    ensures TrimEnd(w) == "" || TrimEnd(w)[0] == w[0]
  {
  }

  lemma TrimOfMarked(level: nat, title: string, w: string)
    requires level > 0 && NormalTitle(title)
    ensures Trim(Marked(level, title) + w) == Marked(level, title) + TrimEnd(w)
  {
    var h := Marked(level, title);
    MarksOfHash(level);
    assert h[0] == '#' && h[|h| - 1] == title[|title| - 1];
    assert TrimStart(h + w) == h + w;
    hide TrimStart, Marked, Marks, Decode;
    TrimEndOfTail(h, w);
  }

  // A heading line: its marks, white space, and text up to the end of the line.
  lemma AfterHeadingLine(level: nat, space: string, text: string, v: string)
    requires space != "" && AllSpace(space) && text != "" && !IsSpace(text[0]) && NoTerminator(text)
    requires v == "" || v[0] == '\n'
    ensures AfterHeading(Marks(level) + space + text + v, level) == Trim(v)
  {
    var m, tail := Marks(level), text + v;
    var all := m + space + text + v;
    hide Marks, Trim;
    Assoc(m + space, text, v);
    Assoc(m, space, tail);
    assert all == m + (space + tail) && all[..level] == m && all[level..] == space + tail;
    assert all[level] == space[0];
    TrimStartOf(space, tail);
    DotRunOf(text, v);
    var k := level + |space|;
    assert all[k..] == tail && all[k + |text|..] == v;
    hide DotRun, TrimStart, IsSpace;
    var e := k + |text|;
    assert v != "" ==> all[e] == all[e..][0];
    assert HeadingEnd(all, level, k) == Some(e);
  }

  lemma {:induction false} TrimStartOf(space: string, text: string)
    requires AllSpace(space) && text != "" && !IsSpace(text[0])
    ensures TrimStart(space + text) == text
  {
    if space == "" {
      assert space + text == text;
    } else {
      assert (space + text)[1..] == space[1..] + text;
      TrimStartOf(space[1..], text);
    }
  }

  lemma AfterMarked(level: nat, title: string, v: string)
    requires NormalTitle(title) && (v == "" || v[0] == '\n')
    ensures AfterHeading(Marked(level, title) + v, level) == Trim(v)
  {
    AfterHeadingLine(level, " ", title, v);
  }

  // Stripping the heading of a part leaves the rest of it, trimmed.
  lemma StripsMarked(level: nat, title: string, w: string)
    requires level > 0 && NormalTitle(title) && (w == "" || w[0] == '\n') && '\r' !in w
    ensures StripHeading(Trim(Marked(level, title) + w), level) == Trim(w)
  {
    var h, v := Marked(level, title), TrimEnd(w);
    TrimEndHead(w);
    TrimOfMarked(level, title, w);
    TrimIsTrimmed(h + w);
    NoReturn(level, title);
    assert '\r' !in h + v;
    NormalizeNewlineFixed(h + v);
    AfterMarked(level, title, v);
    TrimOfTrimEnd(w);
    hide Trim, TrimEnd, NormalizeNewline, AfterHeading, Marked, Decode;
  }

  lemma {:induction false} MarksOfHash(level: nat)
    ensures level > 0 ==> Marks(level)[0] == '#'
    ensures '\r' !in Marks(level)
  {
    if level > 0 { MarksOfHash(level - 1); }
  }

  lemma NoReturn(level: nat, title: string)
    requires NoTerminator(title)
    ensures '\r' !in Marked(level, title)
  {
    MarksOfHash(level);
    hide Marks;
  }

  // -------------------------------------------------------- folds over pieces

  function PushAll(s: State, lines: seq<string>): State {
    if s.sections == [] then s.(root := s.root + lines)
    else
      var last := s.sections[|s.sections| - 1];
      s.(sections := s.sections[|s.sections| - 1 := last.(lines := last.lines + lines)])
  }

  lemma PushThenAll(s: State, line: string, lines: seq<string>, fence: bool, inCode: bool)
    ensures PushAll(Push(s, line).(inCode := fence), lines).(inCode := inCode) ==
        PushAll(s, [line] + lines).(inCode := inCode)
  {
    if s.sections == [] {
      Assoc(s.root, [line], lines);
    } else {
      Assoc(s.sections[|s.sections| - 1].lines, [line], lines);
    }
  }

  // Without an active heading every line goes to the current part.
  lemma {:induction false} FoldQuiet(s: State, lines: seq<string>)
    requires s.title != "" && Quiet(lines, s.inCode)
    ensures Fold(s, lines) == PushAll(s, lines).(inCode := CodeAfter(lines, s.inCode))
    decreases lines
  {
    hide Heading, IsFence, Decode;
    if lines == [] {
      assert s.root + [] == s.root;
      if s.sections != [] {
        var last := s.sections[|s.sections| - 1];
        assert last.lines + [] == last.lines;
      }
    } else {
      var next := Step(s, lines[0]);
      assert next == Push(s, lines[0]).(inCode := s.inCode != IsFence(lines[0]));
      hide PushAll;
      FoldQuiet(next, lines[1..]);
      hide Push;
      PushThenAll(s, lines[0], lines[1..], next.inCode, CodeAfter(lines, s.inCode));
      assert [lines[0]] + lines[1..] == lines;
    }
  }

  // How many lines go to the current part before a heading opens the next one.
  function FirstOpen(lines: seq<string>, inCode: bool): (n: nat)
    ensures n <= |lines|
  {
    if lines == [] || (!inCode && Heading(lines[0], 2).Some?) then 0
    else 1 + FirstOpen(lines[1..], inCode != IsFence(lines[0]))
  }

  lemma {:induction false} FirstOpenSpec(lines: seq<string>, inCode: bool, m: nat)
    requires m <= |lines|
    ensures Quiet(lines[..m], inCode) <==> m <= FirstOpen(lines, inCode)
    ensures m < |lines| && m <= FirstOpen(lines, inCode) ==>
              (m == FirstOpen(lines, inCode) <==> !CodeAfter(lines[..m], inCode) && Heading(lines[m], 2).Some?)
    decreases lines
  {
    hide Heading, IsFence;
    if m > 0 {
      FirstOpenSpec(lines[1..], inCode != IsFence(lines[0]), m - 1);
      assert lines[..m][0] == lines[0] && lines[..m][1..] == lines[1..][..m - 1];
    }
  }

  lemma {:induction false} QuietConcat(a: seq<string>, b: seq<string>, inCode: bool)
    ensures Quiet(a + b, inCode) <==> Quiet(a, inCode) && Quiet(b, CodeAfter(a, inCode))
    ensures CodeAfter(a + b, inCode) == CodeAfter(b, CodeAfter(a, inCode))
    decreases a
  {
    hide Heading, IsFence;
    if a == [] {
      assert a + b == b;
    } else {
      assert (a + b)[1..] == a[1..] + b;
      QuietConcat(a[1..], b, inCode != IsFence(a[0]));
    }
  }

  lemma BlankLineIsQuiet(inCode: bool)
    ensures Quiet([""], inCode) && CodeAfter([""], inCode) == inCode
  {
  }

  function BodyLines(body: string): seq<string> {
    if body == "" then [] else [""] + Split(body)
  }

  lemma BodyLinesQuiet(body: string)
    ensures Quiet(BodyLines(body), false) == Quiet(Split(body), false)
    ensures CodeAfter(BodyLines(body), false) == CodeAfter(Split(body), false)
  {
    SplitEmpty();
    BlankLineIsQuiet(false);
    QuietConcat([""], Split(body), false);
    hide Split, Heading, IsFence;
  }

  // A body of lines read back: leading blank lines and the end are trimmed off.
  // What is stored of a part that holds its heading and the lines x.
  lemma StoredPart(level: nat, title: string, x: seq<string>)
    requires level > 0 && NormalTitle(title) && PlainLines(x)
    ensures StripHeading(Trim(Join([Marked(level, title)] + x)), level) == Trim(Join(x))
  {
    var h := Marked(level, title);
    if x == [] {
      assert [h] + x == [h];
      assert h + "" == h;
      StripsMarked(level, title, "");
    } else {
      JoinConcat([h], x);
      JoinHasNoReturn(x);
      var w := "\n" + Join(x);
      assert Join([h]) + "\n" + Join(x) == h + w;
      StripsMarked(level, title, w);
      assert w[1..] == Join(x);
      assert TrimStart(w) == TrimStart(Join(x));
    }
  }

  lemma BlankAround(body: string)
    ensures Trim("" + "\n" + body + "\n" + "") == Trim(body)
  {
    var v := "\n" + body;
    assert "" + "\n" + body + "\n" + "" == v + ['\n'];
    TrimAppend(v, '\n');
    assert v[1..] == body;
  }

  // A normal body comes back from its lines and the blank line after them.
  lemma NormalBodyReadsBack(body: string)
    requires Trimmed(body) && '\r' !in body
    ensures PlainLines(BodyLines(body) + [""]) && Trim(Join(BodyLines(body) + [""])) == body
  {
    SplitIsPlain(body);
    hide Split;
    var x := BodyLines(body) + [""];
    if body == "" {
      assert x == [""];
    } else {
      assert forall l | l in x :: l == "" || l in Split(body);
      assert Join([""]) == "";
      JoinSplit(body);
      hide Join;
      JoinConcat([""], Split(body));
      JoinConcat([""] + Split(body), [""]);
      BlankAround(body);
      TrimFixed(body);
    }
  }

  function TitleAt(s: State, k: nat): string {
    if k == 0 then s.title else if k <= |s.sections| then s.sections[k - 1].title else ""
  }

  lemma StepKeeps(s: State, line: string)
    requires s.title != ""
    ensures var next := Step(s, line);
            var k := |s.sections|;
            && next.title == s.title && |next.sections| >= k
            && (forall j: nat | j < k :: LinesAt(next, j) == LinesAt(s, j))
            && (forall j: nat | j <= k :: TitleAt(next, j) == TitleAt(s, j))
            && (if !s.inCode && Heading(line, 2).Some? then
                  && |next.sections| == k + 1
                  && LinesAt(next, k) == LinesAt(s, k)
                else
                  && |next.sections| == k
                  && LinesAt(next, k) == LinesAt(s, k) + [line]
                  && next.inCode == (s.inCode != IsFence(line)))
  {
    hide Heading, IsFence, Decode;
  }

  // Once the root has its title, a part that is no longer current never changes.
  lemma {:induction false} FoldKeeps(s: State, lines: seq<string>)
    requires s.title != ""
    ensures var final := Fold(s, lines);
            && final.title == s.title && |final.sections| >= |s.sections|
            && (forall j: nat | j < |s.sections| :: LinesAt(final, j) == LinesAt(s, j))
            && (forall j: nat | j <= |s.sections| :: TitleAt(final, j) == TitleAt(s, j))
    decreases lines
  {
    hide Step, LinesAt, TitleAt;
    if lines != [] {
      StepKeeps(s, lines[0]);
      FoldKeeps(Step(s, lines[0]), lines[1..]);
    }
  }

  // The current part gets the lines before the next active heading.
  lemma {:induction false} CurrentGets(s: State, lines: seq<string>)
    requires s.title != ""
    ensures LinesAt(Fold(s, lines), |s.sections|) == LinesAt(s, |s.sections|) + lines[..FirstOpen(lines, s.inCode)]
    ensures FirstOpen(lines, s.inCode) == |lines| ==> |Fold(s, lines).sections| == |s.sections|
    decreases lines
  {
    hide Step, LinesAt, Heading, IsFence;
    var k, f := |s.sections|, FirstOpen(lines, s.inCode);
    if lines == [] {
      assert lines[..f] == [] && LinesAt(s, k) + [] == LinesAt(s, k);
    } else {
      StepKeeps(s, lines[0]);
      var next := Step(s, lines[0]);
      if f == 0 {
        FoldKeeps(next, lines[1..]);
        assert LinesAt(s, k) + lines[..f] == LinesAt(s, k);
      } else {
        CurrentGets(next, lines[1..]);
        assert lines[..f] == [lines[0]] + lines[1..][..f - 1];
        Assoc(LinesAt(s, k), [lines[0]], lines[1..][..f - 1]);
      }
    }
  }

  function LevelAt(k: nat): nat {
    if k == 0 then 1 else 2
  }

  // What is stored of part k.
  function StoredAt(s: State, k: nat): Section {
    Section(TitleAt(s, k), StripHeading(Trim(Join(LinesAt(s, k))), LevelAt(k)))
  }

  // The parts from the k-th on are read back as they were written.
  ghost predicate ReadBack(final: State, k: nat, part: Section, rest: seq<Section>) {
    && |final.sections| == k + |rest| && StoredAt(final, k) == part
    && forall i: nat | i < |rest| :: StoredAt(final, k + 1 + i) == rest[i]
  }

  lemma ReadBackStep(final: State, k: nat, part: Section, rest: seq<Section>)
    requires rest != []
    ensures ReadBack(final, k, part, rest) <==> StoredAt(final, k) == part && ReadBack(final, k + 1, rest[0], rest[1..])
  {
    hide StoredAt;
    if StoredAt(final, k) == part && ReadBack(final, k + 1, rest[0], rest[1..]) {
      forall i: nat | i < |rest| ensures StoredAt(final, k + 1 + i) == rest[i] {
        if i > 0 { assert StoredAt(final, k + 2 + (i - 1)) == rest[1..][i - 1]; }
      }
    }
    if ReadBack(final, k, part, rest) {
      assert StoredAt(final, k + 1 + 0) == rest[0];
      forall i: nat | i < |rest| - 1 ensures StoredAt(final, k + 2 + i) == rest[1..][i] {
        assert StoredAt(final, k + 1 + (i + 1)) == rest[i + 1];
      }
    }
  }

  predicate SealedFrom(body: string, rest: seq<Section>) {
    Quiet(Split(body), false) && (rest != [] ==> Sealed(body)) && SealedSections(rest)
  }

  ghost predicate NormalSections(sections: seq<Section>) {
    forall i | 0 <= i < |sections| :: NormalTitle(sections[i].title) && NormalBody(sections[i].markdown, 2)
  }

  // A state that has just opened its current part.
  ghost predicate Opened(s: State, title: string) {
    && s.title != "" && !s.inCode && TitleAt(s, |s.sections|) == title
    && LinesAt(s, |s.sections|) == [Marked(LevelAt(|s.sections|), title)]
  }

  lemma PieceIsPlain(heading: string, body: string)
    requires Plain(heading) && '\r' !in body
    ensures PlainLines(PieceLines(heading, body)) && PlainLines(BodyLines(body))
  {
    SplitIsPlain(body);
    hide Split;
  }

  lemma SectionIsPlain(s: Section)
    requires NormalTitle(s.title) && NormalBody(s.markdown, 2)
    ensures Plain("## " + s.title) && '\r' !in s.markdown
  {
    hide Decode, StripHeading, Trimmed;
  }

  lemma {:induction false} TailIsPlain(rest: seq<Section>)
    requires NormalSections(rest)
    ensures PlainLines(Tail(rest)) && Tail(rest)[0] == ""
  {
    hide NormalTitle, NormalBody, PieceLines, Plain;
    EmptyLineIsPlain();
    if rest != [] {
      assert NormalTitle(rest[0].title) && NormalBody(rest[0].markdown, 2);
      SectionIsPlain(rest[0]);
      TailIsPlain(rest[1..]);
      PieceIsPlain("## " + rest[0].title, rest[0].markdown);
      var piece := PieceLines("## " + rest[0].title, rest[0].markdown);
      PlainConcat(piece, Tail(rest[1..]));
      PlainConcat([""], piece + Tail(rest[1..]));
    }
  }

  lemma EmptyLineIsPlain()
    ensures PlainLines([""])
  {
  }

  lemma PlainTake(lines: seq<string>, n: nat)
    requires PlainLines(lines) && n <= |lines|
    ensures PlainLines(lines[..n])
  {
  }

  lemma PrefixIsShort(lines: seq<string>, n: nat, body: string)
    requires 0 < n < |lines| && Join(lines) == body
    ensures |Trim(Join([""] + lines[..n]))| < |body|
  {
    var p, q := lines[..n], lines[n..];
    assert Join([""]) == "";
    JoinConcat([""], p);
    JoinConcat(p, q);
    hide Join;
    assert lines == p + q;
    assert "" + "\n" + Join(p) == "\n" + Join(p);
    SpaceBefore("\n", Join(p));
    TrimShortens(Join(p));
  }

  // A heading inside the body cuts it short.
  lemma TooShort(body: string, f: nat)
    requires Trimmed(body) && f < |BodyLines(body)|
    ensures Trim(Join(BodyLines(body)[..f])) != body
  {
    var lines := Split(body);
    hide Split;
    var x := BodyLines(body)[..f];
    if f <= 1 {
      assert x == [] || x == [""];
      assert Join(x) == "";
    } else {
      hide Join, Trim;
      assert x == [""] + lines[..f - 1];
      JoinSplit(body);
      PrefixIsShort(lines, f - 1, body);
    }
  }

  lemma {:induction false} SpaceBefore(space: string, x: string)
    requires AllSpace(space)
    ensures Trim(space + x) == Trim(x)
  {
    if space == "" {
      assert space + x == x;
    } else {
      assert (space + x)[1..] == space[1..] + x;
      SpaceBefore(space[1..], x);
    }
  }

  lemma TrimReachesHash(a: string, q: string)
    requires (a == "" || !IsSpace(a[0])) && q != "" && q[0] == '#'
    ensures |Trim(a + q)| > |a|
  {
    var h, w := a + [q[0]], q[1..];
    assert a + q == h + w;
    assert h[0] == if a == "" then '#' else a[0];
    assert TrimStart(h + w) == h + w;
    TrimEndOfTail(h, w);
  }

  lemma TrimThroughHash(a: string, q: string)
    requires q != "" && q[0] == '#' && (a != "" ==> !IsSpace(a[0]))
    ensures |Trim("\n" + (a + "\n\n" + q))| > |a| && |Trim("\n" + q)| > 0
  {
    SpaceBefore("\n", q);
    TrimReachesHash("", q);
    assert "" + q == q;
    SpaceBefore("\n", a + "\n\n" + q);
    if a != "" {
      TrimReachesHash(a + "\n\n", q);
    } else {
      SpaceBefore("\n\n", q);
      hide Trim;
      assert a + "\n\n" == "\n\n";
    }
  }

  // An open fence swallows the heading that follows.
  lemma TooLong(body: string, z: seq<string>)
    requires Trimmed(body) && z != [] && z[0] != "" && z[0][0] == '#'
    ensures Trim(Join(BodyLines(body) + [""] + z)) != body
  {
    hide Split, Trim;
    var y, q := BodyLines(body) + [""], Join(z);
    assert q[0] == '#';
    TrimThroughHash(body, q);
    JoinConcat(y, z);
    assert Join([""]) == "";
    if body == "" {
      assert y == [""];
      assert "" + "\n" + q == "\n" + q;
    } else {
      JoinBodyLines(body);
      hide Join, BodyLines;
      Regroup(body, q);
    }
  }

  lemma Regroup(body: string, q: string)
    ensures "\n" + body + "\n" + "\n" + q == "\n" + (body + "\n\n" + q)
  {
    assert "\n" + body + "\n" + "\n" + q == "\n" + body + "\n\n" + q;
  }

  lemma JoinBodyLines(body: string)
    requires body != ""
    ensures Join(BodyLines(body) + [""]) == "\n" + body + "\n"
  {
    var lines := Split(body);
    JoinSplit(body);
    JoinConcat([""], lines);
    JoinConcat([""] + lines, [""]);
    assert Join([""]) == "";
    hide Join, Split;
    assert "" + "\n" + body + "\n" + "" == "\n" + body + "\n";
  }

  lemma NoHeadingInBlank()
    ensures Heading("", 2) == None && !IsFence("")
  {
  }

  lemma Slices<T>(b: seq<T>, x: T, r: seq<T>)
    ensures var s := b + ([x] + r);
            |s| == |b| + 1 + |r| && s[..|b|] == b && s[|b|] == x && s[..|b| + 1] == b + [x] && s[|b| + 1..] == r
  {
  }

  lemma TailHead(rest: seq<Section>)
    requires rest != []
    ensures Tail(rest) == [""] + ([Marked(2, rest[0].title)] + (BodyLines(rest[0].markdown) + Tail(rest[1..])))
  {
    hide Split;
    MarkedIs(rest[0].title);
    hide Marked;
    Assoc([Marked(2, rest[0].title)], BodyLines(rest[0].markdown), Tail(rest[1..]));
  }

  lemma TwoSlices<T>(b: seq<T>, x: T, h: T, r: seq<T>)
    ensures var s, n := b + ([x] + ([h] + r)), |b|;
            && |s| == n + 2 + |r| && s[..n] == b && s[n] == x && s[..n + 1] == b + [x] && s[n + 1] == h &&
                s[n + 2..] == r
  {
    Slices(b, x, [h] + r);
    Slices(b + [x], h, r);
    Assoc(b, [x], [h] + r);
  }

  lemma FirstLines(body: string, rest: seq<Section>)
    ensures var lines, n := BodyLines(body) + Tail(rest), |BodyLines(body)|;
            && |lines| > n && lines[n] == "" && lines[..n] == BodyLines(body) &&
                lines[..n + 1] == BodyLines(body) + [""]
            && (rest == [] ==> |lines| == n + 1)
            && (rest != [] ==>
                 && |lines| > n + 1 && lines[n + 1] == Marked(2, rest[0].title)
                 && lines[n + 2..] == BodyLines(rest[0].markdown) + Tail(rest[1..]))
  {
    if rest == [] {
      assert Tail(rest) == [""] + [];
      hide Tail, BodyLines;
      Slices(BodyLines(body), "", []);
    } else {
      hide Tail, BodyLines, Marked;
      TailHead(rest);
      TwoSlices(BodyLines(body), "", Marked(2, rest[0].title), BodyLines(rest[0].markdown) + Tail(rest[1..]));
    }
  }

  // Where the current part ends, in terms of its body.
  lemma WhereItOpens(body: string, rest: seq<Section>)
    requires NormalSections(rest)
    ensures var f, n := FirstOpen(BodyLines(body) + Tail(rest), false), |BodyLines(body)|;
            && f != n && f <= |BodyLines(body) + Tail(rest)|
            && (f > n <==> Quiet(Split(body), false))
            && (f == n + 1 <==> Quiet(Split(body), false) && (rest != [] ==> Sealed(body)))
  {
    var lines, n := BodyLines(body) + Tail(rest), |BodyLines(body)|;
    hide Split, Heading, IsFence, Tail, Quiet, CodeAfter, FirstOpen, Marked, Decode, StripHeading;
    FirstLines(body, rest);
    BodyLinesQuiet(body);
    NoHeadingInBlank();
    FirstOpenSpec(lines, false, n);
    hide BodyLines;
    FirstOpenSpec(lines, false, n + 1);
    BlankLineIsQuiet(CodeAfter(lines[..n], false));
    QuietConcat(lines[..n], [""], false);
    if rest != [] { HeadingOfMarked(2, rest[0].title); }
  }

  // What the current part is read back as.
  lemma CurrentStored(s: State, part: Section, rest: seq<Section>)
    requires Opened(s, part.title) && NormalTitle(part.title) && NormalBody(part.markdown, LevelAt(|s.sections|))
    requires NormalSections(rest)
    ensures var lines := BodyLines(part.markdown) + Tail(rest);
            StoredAt(Fold(s, lines), |s.sections|) == Section(part.title, Trim(Join(lines[..FirstOpen(lines, false)])))
  {
    var k, lines := |s.sections|, BodyLines(part.markdown) + Tail(rest);
    FoldKeeps(s, lines);
    CurrentGets(s, lines);
    TailIsPlain(rest);
    assert PlainLines(BodyLines(part.markdown)) by {
      hide StripHeading;
      PieceIsPlain("", part.markdown);
    }
    hide Fold, FirstOpen, LinesAt, TitleAt, Tail, BodyLines, Decode, StripHeading, Trim, Join, Marked;
    assert PlainLines(lines);
    PlainTake(lines, FirstOpen(lines, false));
    StoredPart(LevelAt(k), part.title, lines[..FirstOpen(lines, false)]);
  }

  lemma BodyIsReadBackIff(level: nat, body: string, rest: seq<Section>)
    requires NormalBody(body, level) && NormalSections(rest)
    ensures var lines, n := BodyLines(body) + Tail(rest), |BodyLines(body)|;
            var f := FirstOpen(lines, false);
            Trim(Join(lines[..f])) == body <==> f == n + 1
  {
    var lines, n := BodyLines(body) + Tail(rest), |BodyLines(body)|;
    var f := FirstOpen(lines, false);
    hide StripHeading, Tail, Trim, Join, BodyLines, FirstOpen, Decode, Split, Marked, Quiet, Sealed;
    WhereItOpens(body, rest);
    FirstLines(body, rest);
    if f < n {
      assert lines[..f] == BodyLines(body)[..f];
      TooShort(body, f);
    } else if f == n + 1 {
      NormalBodyReadsBack(body);
    } else {
      var z := lines[n + 1..f];
      assert lines[..f] == lines[..n + 1] + z;
      assert z[0] == Marked(2, rest[0].title);
      MarkedStarts(2, rest[0].title);
      TooLong(body, z);
    }
  }

  lemma MarkedStarts(level: nat, title: string)
    requires level > 0
    ensures Marked(level, title) != "" && Marked(level, title)[0] == '#'
  {
    MarksOfHash(level);
  }

  lemma OpenedByHeading(s: State, a: seq<string>, title: string)
    requires s.title != "" && !s.inCode && Quiet(a, false) && !CodeAfter(a, false) && NormalTitle(title)
    ensures var next := Fold(s, a + [Marked(2, title)]);
            |next.sections| == |s.sections| + 1 && Opened(next, title)
  {
    hide Fold, Heading, IsFence, Quiet, CodeAfter, Marked, NoTerminator, Trimmed;
    HeadingOfMarked(2, title);
    FoldQuiet(s, a);
    FoldSnoc(s, a, Marked(2, title));
  }

  // After a sealed part the next heading opens its own.
  lemma NextOpened(s: State, body: string, rest: seq<Section>)
    requires s.title != "" && !s.inCode && NormalSections(rest) && rest != [] && Sealed(body)
    ensures var lines, n := BodyLines(body) + Tail(rest), |BodyLines(body)|;
            var next := Fold(s, lines[..n + 2]);
            && |next.sections| == |s.sections| + 1 && Opened(next, rest[0].title)
            && Fold(s, lines) == Fold(next, BodyLines(rest[0].markdown) + Tail(rest[1..]))
  {
    hide Tail, Heading, IsFence, Decode, Split, StripHeading, Fold, Quiet, CodeAfter, Marked, BodyLines, Opened,
         NormalTitle;
    var lines, n := BodyLines(body) + Tail(rest), |BodyLines(body)|;
    FirstLines(body, rest);
    BodyLinesQuiet(body);
    BlankLineIsQuiet(CodeAfter(lines[..n], false));
    QuietConcat(lines[..n], [""], false);
    OpenedByHeading(s, lines[..n + 1], rest[0].title);
    TakeNext(lines, n + 1);
    assert lines == lines[..n + 2] + lines[n + 2..];
    FoldConcat(s, lines[..n + 2], lines[n + 2..]);
  }

  // One part: it is read back, with all that follow it, exactly when it is sealed.
  lemma {:induction false} PartsReadBackIff(s: State, part: Section, rest: seq<Section>)
    requires Opened(s, part.title) && NormalTitle(part.title) && NormalBody(part.markdown, LevelAt(|s.sections|))
    requires NormalSections(rest)
    ensures ReadBack(Fold(s, BodyLines(part.markdown) + Tail(rest)), |s.sections|, part, rest) <==>
            SealedFrom(part.markdown, rest)
    decreases |rest|
  {
    hide Fold, Heading, IsFence, Decode, Trim, StripHeading, Split, Join, Tail, Quiet, CodeAfter, NormalTitle,
         NormalBody,
         BodyLines, FirstOpen, StoredAt, Sealed, LinesAt, TitleAt, Marked;
    var k, body := |s.sections|, part.markdown;
    var n, lines := |BodyLines(body)|, BodyLines(body) + Tail(rest);
    var final, f := Fold(s, lines), FirstOpen(lines, false);
    CurrentStored(s, part, rest);
    BodyIsReadBackIff(LevelAt(k), body, rest);
    WhereItOpens(body, rest);
    FirstLines(body, rest);
    if f == n + 1 {
      if rest == [] {
        CurrentGets(s, lines);
      } else {
        NextOpened(s, body, rest);
        var next := Fold(s, lines[..n + 2]);
        SectionIsNormal(rest);
        PartsReadBackIff(next, rest[0], rest[1..]);
        ReadBackStep(final, k, part, rest);
      }
    }
  }

  lemma SectionIsNormal(rest: seq<Section>)
    requires NormalSections(rest) && rest != []
    ensures NormalTitle(rest[0].title) && NormalBody(rest[0].markdown, 2) && NormalSections(rest[1..])
  {
    hide NormalTitle, NormalBody;
  }

  lemma ExportHasNoReturn(c: Consensus)
    requires Wellformed(c)
    ensures '\r' !in Export(c)
  {
    hide NormalTitle, Export, StripHeading, StripLinks, Tail;
    ExportSplits(c);
    TailIsPlain(c.sections);
    RootHeadingIsPlain(c.title);
    PieceIsPlain("# " + c.title, c.markdown);
    assert PlainLines(ExportLines(c));
    JoinHasNoReturn(ExportLines(c));
    JoinSplit(Export(c));
  }

  lemma RootHeadingIsPlain(title: string)
    requires NormalTitle(title)
    ensures Plain("# " + title)
  {
    assert '\r' !in "# " && '\n' !in "# ";
  }

  lemma RootOpened(title: string)
    requires NormalTitle(title)
    ensures var s := Step(START, Marked(1, title));
            Opened(s, title) && s.sections == []
  {
    HeadingOfMarked(1, title);
    hide Heading, Trim, Marked;
  }

  // A consensus whose titles and bodies are in the form an import stores is read
  // back from its exported text exactly when no heading outside a code fence
  // would open a section inside a body, and every body but the last closes the
  // fences it opens.
  lemma ExportParsesBackIff(c: Consensus)
    requires Wellformed(c)
    ensures Parsed(Export(c)) == c <==> SealedConsensus(c)
  {
    hide Export, Parsed, Tail, NormalTitle, NormalBody, StripLinks, StripHeading, Decode, Quiet, CodeAfter, Marked,
         Step, BodyLines,
         Fold, Finished, Stripped, Opened;
    var s, rest := Step(START, Marked(1, c.title)), BodyLines(c.markdown) + Tail(c.sections);
    ParsedExport(c);
    RootOpened(c.title);
    PartsReadBackIff(s, Section(c.title, c.markdown), c.sections);
    TitleOfOpened(s, c.title);
    FoldKeeps(s, rest);
    ParsedIsReadBack(Fold(s, rest), c);
  }

  lemma TitleOfOpened(s: State, title: string)
    requires Opened(s, title) && s.sections == []
    ensures s.title == title != ""
  {
  }

  lemma ParsedExport(c: Consensus)
    requires Wellformed(c)
    ensures Parsed(Export(c)) ==
            Stripped(Finished(Fold(Step(START, Marked(1, c.title)), BodyLines(c.markdown) + Tail(c.sections))))
  {
    hide Export, NormalTitle, StripLinks, StripHeading, Decode, Trim, Stripped, Finished, Step;
    var h, rest := Marked(1, c.title), BodyLines(c.markdown) + Tail(c.sections);
    ExportHasNoReturn(c);
    NormalizeNewlineFixed(Export(c));
    ExportSplits(c);
    MarkedIs(c.title);
    Assoc([h], BodyLines(c.markdown), Tail(c.sections));
    hide Split, Tail, Marked, BodyLines, NormalizeNewline;
    assert ([h] + rest)[1..] == rest;
  }

  lemma ParsedIsReadBack(final: State, c: Consensus)
    requires final.title == c.title != ""
    ensures Stripped(Finished(final)) == c <==> ReadBack(final, 0, Section(c.title, c.markdown), c.sections)
  {
    hide StripHeading, Trim, Join;
    var r := Stripped(Finished(final));
    assert |r.sections| == |final.sections|;
    assert Section(r.title, r.markdown) == StoredAt(final, 0);
    assert forall i: nat | i < |final.sections| :: r.sections[i] == StoredAt(final, 1 + i);
    hide StoredAt, Stripped, Finished;
    if r == c {
      assert forall i: nat | i < |c.sections| :: StoredAt(final, 1 + i) == c.sections[i];
    }
    if ReadBack(final, 0, Section(c.title, c.markdown), c.sections) {
      assert forall i: nat | i < |c.sections| :: StoredAt(final, 0 + 1 + i) == c.sections[i];
      assert r.sections == c.sections;
    }
  }
}
