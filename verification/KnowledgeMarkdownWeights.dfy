// The lines that hold text are neither lost nor made when a consensus is exported
// and split again: a count that the import's round trip is decided by.
module KnowledgeMarkdownWeights {
  import opened Text
  import opened Wrappers
  import opened KnowledgeMarkdown
  import opened KnowledgeMarkdownRoundTrip

  // The number of lines of a text that are not blank.
  function Weight(text: string): nat {
    |NonBlank(Split(text))|
  }

  lemma {:induction false} TrimStartKeepsWeight(s: string)
    ensures Weight(TrimStart(s)) == Weight(s)
  {
    if s != "" && IsSpace(s[0]) {
      TrimStartKeepsWeight(s[1..]);
      assert s == [s[0]] + s[1..];
      SplitCons(s[0], s[1..]);
      var rest := Split(s[1..]);
      var first := [s[0]] + rest[0];
      if s[0] == '\n' {
        assert Blank("");
        hide Blank, Split;
        assert ([""] + rest)[1..] == rest;
      } else {
        assert first[1..] == rest[0] && Trim(first) == Trim(rest[0]);
        hide Trim, Split;
        assert ([first] + rest[1..])[1..] == rest[1..];
      }
    }
  }

  lemma TrimKeepsWeight(s: string)
    ensures Weight(Trim(s)) == Weight(s)
  {
    hide NonBlank, Split;
    TrimStartKeepsWeight(s);
    TrimEndKeepsNonBlank(TrimStart(s));
  }

  lemma LinesWeight(lines: seq<string>)
    requires SingleLines(lines)
    ensures Weight(Trim(Join(lines))) == |NonBlank(lines)|
  {
    TrimKeepsWeight(Join(lines));
    if lines != [] {
      SplitJoin(lines);
    } else {
      SplitEmpty();
      assert Blank("");
    }
  }

  // --------------------------------------------------- the lines of a part

  lemma {:induction false} TrimEndConcat(a: string, b: string)
    ensures TrimEnd(a + b) == if TrimEnd(b) == "" then TrimEnd(a) else a + TrimEnd(b)
  {
    if b == "" {
      assert a + b == a;
    } else {
      assert (a + b)[..|a + b| - 1] == a + b[..|b| - 1];
      if IsSpace(b[|b| - 1]) { TrimEndConcat(a, b[..|b| - 1]); }
    }
  }

  // A heading line with a title is its marks, white space and the rest.
  lemma HeadingParts(h: string, level: nat) returns (space: string, text: string)
    requires Heading(h, level).Some? && Heading(h, level).value != ""
    ensures h == Marks(level) + space + text && space != "" && AllSpace(space)
    ensures text != "" && !IsSpace(text[0]) && NoTerminator(text)
  {
    HeadingFacts(h, level);
    hide Heading, Marks, TrimStart, Trim, NoTerminator, IsSpace;
    var tail := h[level..];
    SpaceThenText(tail);
    text := TrimStart(tail);
    space := tail[..|tail| - |text|];
    assert h == h[..level] + tail;
    Assoc(Marks(level), space, text);
  }

  lemma HeadingFacts(h: string, level: nat)
    requires Heading(h, level).Some? && Heading(h, level).value != ""
    ensures |h| > level && h[..level] == Marks(level) && IsSpace(h[level]) && Trim(h[level..]) != ""
    ensures TrimStart(h[level..]) != "" ==> NoTerminator(TrimStart(h[level..]))
  {
    hide Marks, TrimStart, Trim, NoTerminator, IsSpace;
  }

  lemma SpaceThenText(s: string)
    requires s != "" && IsSpace(s[0]) && Trim(s) != ""
    ensures var text := TrimStart(s);
            && 0 < |text| < |s| && !IsSpace(text[0])
            && s == s[..|s| - |text|] + text && AllSpace(s[..|s| - |text|])
  {
    var text := TrimStart(s);
    assert TrimEnd("") == "" && Trim(s) == TrimEnd(text);
    TrimStartSuffix(s);
    SpacesFirst(s);
    hide TrimStart, TrimEnd, IsSpace, AllSpace, Trim;
    assert text != "" && text[0] != s[0];
    assert text != s;
  }

  lemma {:induction false} SpacesFirst(s: string)
    ensures |TrimStart(s)| <= |s| && AllSpace(s[..|s| - |TrimStart(s)|])
  {
    TrimStartSuffix(s);
    if s != "" && IsSpace(s[0]) {
      SpacesFirst(s[1..]);
      var n := |s| - |TrimStart(s)|;
      assert s[..n] == [s[0]] + s[1..][..n - 1];
    }
  }

  // The rest of a heading line once the part is trimmed: whole if a line that
  // holds text follows it.
  lemma TrimmedPart(h: string, marks: string, space: string, text: string, w: string) returns (y: string)
    requires h == marks + space + text && h != "" && !IsSpace(h[0]) && (w == "" || w[0] == '\n')
    requires text != "" && !IsSpace(text[0]) && NoTerminator(text)
    ensures Trim(h + w) == marks + space + y + TrimEnd(w)
    ensures y != "" && !IsSpace(y[0]) && NoTerminator(y)
  {
    hide TrimEnd, NoTerminator, IsSpace;
    assert TrimStart(h + w) == h + w;
    hide TrimStart;
    TrimEndConcat(h, w);
    if TrimEnd(w) == "" {
      y := TrimEnd(text);
      TrimEndKeepsFirst(text);
      TrimEndConcat(marks + space, text);
      PrefixHasNoTerminator(y, text);
      assert marks + space + y + "" == marks + space + y;
    } else {
      y := text;
    }
  }

  lemma PrefixHasNoTerminator(y: string, text: string)
    requires y <= text && NoTerminator(text)
    ensures NoTerminator(y)
  {
  }

  lemma HeadingHasMarks(h: string, level: nat)
    requires level > 0 && Heading(h, level).Some?
    ensures h != "" && h[0] == '#' && !IsSpace(h[0])
  {
    hide TrimStart, Trim, NoTerminator;
    MarksOfHash(level);
    assert h[0] == h[..level][0];
  }

  // What is left of a part that starts with any heading line of its level.
  lemma StrippedPart(h: string, level: nat, x: seq<string>)
    requires level > 0 && Heading(h, level).Some? && Heading(h, level).value != ""
    requires Plain(h) && PlainLines(x)
    ensures StripHeading(Trim(Join([h] + x)), level) == Trim(Join(x))
  {
    hide Heading, Trim, TrimEnd, TrimStart, NormalizeNewline, Join, AfterHeading, NoTerminator, IsSpace, AllSpace;
    var space, text := HeadingParts(h, level);
    var w := if x == [] then "" else "\n" + Join(x);
    JoinTail(h, x);
    JoinHasNoReturn(x);
    HeadingHasMarks(h, level);
    var y := TrimmedPart(h, Marks(level), space, text, w);
    TrimIsTrimmed(h + w);
    NormalizeNewlineFixed(Trim(h + w));
    TrimEndHead(w);
    AfterHeadingLine(level, space, y, TrimEnd(w));
    BodyOfTail(x, w, TrimEnd(w));
  }

  lemma JoinTail(h: string, x: seq<string>)
    ensures Join([h] + x) == h + (if x == [] then "" else "\n" + Join(x))
  {
    if x == [] {
      assert [h] + x == [h] && h + "" == h;
    } else {
      JoinConcat([h], x);
      assert h + "\n" + Join(x) == h + ("\n" + Join(x));
    }
  }

  lemma BodyOfTail(x: seq<string>, w: string, v: string)
    requires w == (if x == [] then "" else "\n" + Join(x)) && v == TrimEnd(w)
    ensures Trim(v) == Trim(Join(x))
  {
    TrimOfTrimEnd(w);
    if x != [] { SpaceBefore("\n", Join(x)); }
  }

  // A part with a title weighs one line more than what is stored of it.
  lemma PartWeight(h: string, level: nat, x: seq<string>)
    requires level > 0 && Heading(h, level).Some? && Heading(h, level).value != ""
    requires Plain(h) && PlainLines(x)
    ensures |NonBlank([h] + x)| == 1 + Weight(StripHeading(Trim(Join([h] + x)), level))
  {
    StrippedPart(h, level, x);
    HeadingIsText(h, level);
    hide StripHeading, Trim, Heading;
    assert SingleLines(x) by { assert forall l | l in x :: Plain(l); }
    LinesWeight(x);
    assert ([h] + x)[1..] == x;
  }

  lemma HeadingIsText(h: string, level: nat)
    requires level > 0 && Heading(h, level).Some?
    ensures !Blank(h)
  {
    assert h[0] == h[..level][0] == '#';
    TrimEndKeepsFirst(h);
  }

  // ------------------------------------------------- the lines of a split

  function PartsWeight(parts: seq<Part>): nat {
    if parts == [] then 0 else |NonBlank(parts[0].lines)| + PartsWeight(parts[1..])
  }

  lemma {:induction false} PartsWeightConcat(a: seq<Part>, b: seq<Part>)
    ensures PartsWeight(a + b) == PartsWeight(a) + PartsWeight(b)
  {
    if a == [] {
      assert a + b == b;
    } else {
      assert (a + b)[1..] == a[1..] + b;
      PartsWeightConcat(a[1..], b);
    }
  }

  lemma PartsWeightOne(p: Part)
    ensures PartsWeight([p]) == |NonBlank(p.lines)|
  {
    assert [p][1..] == [];
  }

  function StateWeight(s: State): nat {
    |NonBlank(s.root)| + PartsWeight(s.sections)
  }

  lemma StepWeight(s: State, line: string)
    ensures StateWeight(Step(s, line)) == StateWeight(s) + |NonBlank([line])|
  {
    hide NonBlank, PartsWeight, Heading, IsFence, Decode;
    NonBlankConcat(s.root, [line]);
    if OpensSection(s, line) {
      var p := Part(Decode(Heading(line, 2).value), [line]);
      PartsWeightConcat(s.sections, [p]);
      PartsWeightOne(p);
    } else if !TakesTitle(s, line) && s.sections != [] {
      var n := |s.sections| - 1;
      var last := s.sections[n];
      var next := last.(lines := last.lines + [line]);
      NonBlankConcat(last.lines, [line]);
      assert s.sections == s.sections[..n] + [last] && s.sections[n := next] == s.sections[..n] + [next];
      PartsWeightConcat(s.sections[..n], [last]);
      PartsWeightConcat(s.sections[..n], [next]);
      PartsWeightOne(last);
      PartsWeightOne(next);
    }
  }

  // Splitting neither drops a line that holds text nor makes one.
  lemma {:induction false} FoldWeight(s: State, lines: seq<string>)
    ensures StateWeight(Fold(s, lines)) == StateWeight(s) + |NonBlank(lines)|
    decreases lines
  {
    hide Step, StateWeight, NonBlank;
    if lines == [] {
      NonBlankNone();
    } else {
      StepWeight(s, lines[0]);
      FoldWeight(Step(s, lines[0]), lines[1..]);
      NonBlankConcat([lines[0]], lines[1..]);
      assert [lines[0]] + lines[1..] == lines;
    }
  }

  lemma NonBlankNone()
    ensures NonBlank([]) == []
  {
  }

  // A part as the splitter opens it and goes on with it.
  ghost predicate Shaped(p: Part) {
    && p.lines != [] && PlainLines(p.lines)
    && Heading(p.lines[0], 2).Some? && p.title == Decode(Heading(p.lines[0], 2).value)
  }

  ghost predicate AllShaped(parts: seq<Part>) {
    forall i | 0 <= i < |parts| :: Shaped(parts[i])
  }

  lemma StepShapes(s: State, line: string)
    requires AllShaped(s.sections) && Plain(line)
    ensures AllShaped(Step(s, line).sections)
  {
    hide Heading, IsFence, Decode, Plain;
    if OpensSection(s, line) {
      assert [line][0] == line;
    } else if !TakesTitle(s, line) && s.sections != [] {
      var last := s.sections[|s.sections| - 1];
      assert Shaped(last) && (last.lines + [line])[0] == last.lines[0];
    }
  }

  lemma {:induction false} FoldShapes(s: State, lines: seq<string>)
    requires AllShaped(s.sections) && PlainLines(lines)
    ensures AllShaped(Fold(s, lines).sections)
    decreases lines
  {
    hide Step, AllShaped, Plain;
    if lines != [] {
      StepShapes(s, lines[0]);
      FoldShapes(Step(s, lines[0]), lines[1..]);
    }
  }

  // What is stored of a part, and what it weighs.
  function StoredSection(p: Part): Section {
    Section(p.title, StripHeading(Trim(Join(p.lines)), 2))
  }

  lemma StoredWeight(p: Part)
    requires Shaped(p)
    ensures |NonBlank(p.lines)| >= 1
    ensures p.title != "" ==> |NonBlank(p.lines)| == 1 + Weight(StoredSection(p).markdown)
  {
    var h, x := p.lines[0], p.lines[1..];
    assert p.lines == [h] + x && Plain(h) && PlainLines(x);
    HeadingIsText(h, 2);
    assert Decode("") == "";
    hide Heading, StripHeading, Trim, Decode;
    if p.title != "" { PartWeight(h, 2, x); }
    NonBlankHeads(h, x);
  }

  lemma NonBlankHeads(h: string, x: seq<string>)
    requires !Blank(h)
    ensures |NonBlank([h] + x)| == 1 + |NonBlank(x)|
  {
    assert ([h] + x)[1..] == x;
  }

  // ------------------------------------------------ the lines of an export

  function SectionsWeight(sections: seq<Section>): nat {
    if sections == [] then 0 else 1 + Weight(sections[0].markdown) + SectionsWeight(sections[1..])
  }

  lemma PieceWeight(heading: string, body: string)
    requires !Blank(heading)
    ensures |NonBlank(PieceLines(heading, body))| == 1 + Weight(body)
  {
    SplitEmpty();
    assert Blank("");
    hide Split, Blank;
    NonBlankHeads(heading, if body == "" then [] else [""] + Split(body));
    NonBlankConcat([""], Split(body));
    assert NonBlank([""]) == [];
  }

  lemma NormalHeadingIsText(marks: string, title: string)
    requires marks != "" && marks[0] == '#'
    ensures !Blank(marks + title)
  {
    TrimEndKeepsFirst(marks + title);
  }

  lemma {:induction false} TailWeight(sections: seq<Section>)
    ensures |NonBlank(Tail(sections))| == SectionsWeight(sections)
  {
    assert Blank("");
    hide Blank, PieceLines, Weight;
    NonBlankNone();
    if sections == [] {
      assert Tail(sections) == [""];
    } else {
      var piece := PieceLines("## " + sections[0].title, sections[0].markdown);
      TailWeight(sections[1..]);
      NormalHeadingIsText("## ", sections[0].title);
      PieceWeight("## " + sections[0].title, sections[0].markdown);
      NonBlankConcat(piece, Tail(sections[1..]));
      NonBlankConcat([""], piece + Tail(sections[1..]));
      assert NonBlank([""]) == [];
    }
  }

  lemma BodyWeight(body: string)
    ensures |NonBlank(BodyLines(body))| == Weight(body)
  {
    SplitEmpty();
    assert Blank("");
    hide Split, Blank;
    NonBlankConcat([""], Split(body));
    assert NonBlank([""]) == [];
    NonBlankNone();
  }

  lemma FirstPartIsPlain(c: Consensus)
    requires Wellformed(c)
    ensures PlainLines(BodyLines(c.markdown) + Tail(c.sections)) && Plain(Marked(1, c.title))
  {
    hide Decode, StripHeading, StripLinks, BodyLines, Tail;
    TailIsPlain(c.sections);
    PieceIsPlain("", c.markdown);
    MarkedIs(c.title);
    hide Marked;
    RootHeadingIsPlain(c.title);
  }

  function RestLines(c: Consensus): seq<string> {
    BodyLines(c.markdown) + Tail(c.sections)
  }

  // The splitter at the end of an exported consensus.
  function FinalState(c: Consensus): State {
    Fold(Step(START, Marked(1, c.title)), RestLines(c))
  }

  lemma RootWeight(c: Consensus)
    requires Wellformed(c)
    ensures var final := FinalState(c);
            && final.title == c.title != ""
            && |NonBlank(final.root)| == 1 + Weight(StripHeading(Trim(Join(final.root)), 1))
  {
    var h, rest := Marked(1, c.title), RestLines(c);
    var s := Step(START, h);
    FirstPartIsPlain(c);
    RootOpened(c.title);
    HeadingOfMarked(1, c.title);
    hide Decode, StripHeading, StripLinks, Trim, Step, Fold, Heading, Marked, Trimmed, NoTerminator, FirstOpen,
         NonBlank, RestLines;
    FoldKeeps(s, rest);
    CurrentGets(s, rest);
    var x := rest[..FirstOpen(rest, s.inCode)];
    PlainTake(rest, |x|);
    PartWeight(h, 1, x);
  }

  lemma FinalWeight(c: Consensus)
    requires Wellformed(c)
    ensures StateWeight(FinalState(c)) == 1 + Weight(c.markdown) + SectionsWeight(c.sections)
    ensures AllShaped(FinalState(c).sections)
  {
    var h, rest := Marked(1, c.title), RestLines(c);
    FirstPartIsPlain(c);
    RootOpened(c.title);
    HeadingOfMarked(1, c.title);
    HeadingIsText(h, 1);
    hide Decode, StripHeading, StripLinks, Trim, Step, Fold, Heading, Marked, Trimmed, NoTerminator, NonBlank;
    FoldShapes(Step(START, h), rest);
    FoldWeight(Step(START, h), rest);
    NonBlankConcat(BodyLines(c.markdown), Tail(c.sections));
    BodyWeight(c.markdown);
    TailWeight(c.sections);
    NonBlankHeads(h, []);
    NonBlankNone();
    assert [h] + [] == [h];
  }

  // An exported consensus splits into parts that together weigh what it does.
  lemma ParsedParts(c: Consensus) returns (parts: seq<Part>)
    requires Wellformed(c)
    ensures var p := Parsed(Export(c));
            && p.title == c.title && |p.sections| == |parts| && AllShaped(parts)
            && (forall i | 0 <= i < |parts| :: p.sections[i] == StoredSection(parts[i]))
            && PartsWeight(parts) + Weight(p.markdown) == SectionsWeight(c.sections) + Weight(c.markdown)
  {
    hide Export, Parsed, StripHeading, Wellformed, Trim, AllShaped, Weight, NonBlank, PartsWeight, SectionsWeight;
    ParsedExport(c);
    RootWeight(c);
    FinalWeight(c);
    hide FinalState;
    parts := FinalState(c).sections;
  }
}
