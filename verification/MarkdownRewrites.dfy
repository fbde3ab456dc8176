// replaceMarkdownSection and upsertMarkdownFrontmatter: each changes one part of
// a text, and of two writes to that part the last one wins
// (server/markdown-document.js:100-148).
module MarkdownRewrites {
  import opened Text
  import opened Wrappers
  import opened MarkdownDocument
  import opened MarkdownBullets

  // ------------------------------------------------------- replacing a section

  // The lines given for a section, without a heading line of their own.
  function GivenBody(markdown: string): seq<string> {
    var given := DocumentLines(markdown);
    if IsSectionHeading(given[0]) then given[1..] else given
  }

  function Pieces(before: seq<string>, headingLine: string, body: seq<string>, after: seq<string>): seq<string> {
    before + [headingLine] + body + after
  }

  // replaceMarkdownSection on non-blank lines.
  function ReplaceView(lines: seq<string>, aliases: seq<string>, headingLine: string, body: seq<string>): seq<string> {
    var at := FindHeading(lines, aliases);
    if at == |lines| then Pieces(lines, headingLine, body, [])
    else Pieces(lines[..at], headingLine, body, lines[FindSectionEnd(lines, at + 1)..])
  }

  function Gap(lines: seq<string>): seq<string> {
    if lines != [] && !Blank(lines[|lines| - 1]) then [""] else []
  }

  function ReplacedLines(lines: seq<string>, aliases: seq<string>, headingLine: string,
                         body: seq<string>): seq<string> {
    var at := FindHeading(lines, aliases);
    if at == |lines| then Pieces(lines + Gap(lines), headingLine, body, [])
    else Pieces(lines[..at], headingLine, body, lines[FindSectionEnd(lines, at + 1)..])
  }

  lemma ReplacedIs(content: string, heading: string, markdown: string)
    ensures ReplaceMarkdownSection(content, heading, markdown) ==
            Render(ReplacedLines(DocumentLines(content), SectionHeadingAliases(heading), HeadingLine(heading),
                                 GivenBody(markdown)))
  {
    hide FindHeading, FindSectionEnd, IsSectionHeading, SectionHeadingAliases, HeadingLine, Blank;
    var lines, h, body := DocumentLines(content), HeadingLine(heading), GivenBody(markdown);
    assert Pieces(lines + Gap(lines), h, body, []) == AppendSection(lines, h, body);
  }

  lemma GapView(lines: seq<string>)
    ensures NonBlank(lines + Gap(lines)) == NonBlank(lines)
  {
    assert Blank("");
    hide NonBlank, Blank;
    if Gap(lines) != [] { NonBlankSnoc(lines, ""); } else { assert lines + Gap(lines) == lines; }
  }

  lemma NoHeadingView(lines: seq<string>, aliases: seq<string>)
    requires FindHeading(lines, aliases) == |lines|
    ensures FindHeading(NonBlank(lines), aliases) == |NonBlank(lines)|
  {
    hide NonBlank, FindHeading, HeadingMatches;
    FindHeadingSpec(lines, aliases);
    FindHeadingSpec(NonBlank(lines), aliases);
    NonBlankSound(lines);
    assert NoHeading(lines, aliases);
    assert NoHeading(NonBlank(lines), aliases);
  }

  lemma ReplacedView(lines: seq<string>, aliases: seq<string>, headingLine: string, body: seq<string>)
    requires !Blank(headingLine)
    ensures NonBlank(ReplacedLines(lines, aliases, headingLine, body)) ==
            ReplaceView(NonBlank(lines), aliases, headingLine, NonBlank(body))
  {
    hide NonBlank, Blank, FindHeading, FindSectionEnd, HeadingMatches, Gap;
    var at := FindHeading(lines, aliases);
    if at == |lines| {
      NoHeadingView(lines, aliases);
      PiecesView(lines + Gap(lines), headingLine, body, []);
      GapView(lines);
      NonBlankOfNone();
    } else {
      FindHeadingSpec(lines, aliases);
      var end := FindSectionEnd(lines, at + 1);
      SectionSplit(lines, aliases);
      HeadingNotBlank(lines[at], aliases);
      ViewSection(lines, aliases, at, end);
      ViewParts(lines, at, end);
      SectionFound(NonBlank(lines), aliases, ViewAt(lines, at), ViewEnd(lines, at, end));
      PiecesView(lines[..at], headingLine, body, lines[end..]);
    }
  }

  lemma PiecesPlain(before: seq<string>, headingLine: string, body: seq<string>, after: seq<string>)
    requires PlainLines(before) && Plain(headingLine) && PlainLines(body) && PlainLines(after)
    ensures PlainLines(Pieces(before, headingLine, body, after)) && Pieces(before, headingLine, body, after) != []
  {
    hide Plain;
  }

  lemma ReplacedPlain(lines: seq<string>, aliases: seq<string>, headingLine: string, body: seq<string>)
    requires PlainLines(lines) && Plain(headingLine) && PlainLines(body)
    ensures PlainLines(ReplacedLines(lines, aliases, headingLine, body)) &&
        ReplacedLines(lines, aliases, headingLine, body) != []
  {
    hide FindHeading, FindSectionEnd, Plain, Pieces, Blank;
    EmptyIsPlain();
    var at := FindHeading(lines, aliases);
    if at < |lines| {
      PiecesPlain(lines[..at], headingLine, body, lines[FindSectionEnd(lines, at + 1)..]);
    } else {
      PiecesPlain(lines + Gap(lines), headingLine, body, []);
    }
  }

  lemma EmptyIsPlain()
    ensures Plain("")
  {
  }

  lemma GivenBodyPlain(markdown: string)
    ensures PlainLines(GivenBody(markdown))
  {
    DocumentLinesPlain(markdown);
    hide IsSectionHeading;
  }

  // Replacing a section changes no line before its heading or from the next
  // heading on; the text given stands between them, less its own heading line.
  lemma ReplaceText(content: string, heading: string, markdown: string)
    requires Plain(HeadingLine(heading))
    ensures View(ReplaceMarkdownSection(content, heading, markdown)) ==
            StripLast(ReplaceView(View(content), SectionHeadingAliases(heading), HeadingLine(heading),
                                  NonBlank(GivenBody(markdown))))
  {
    hide ReplaceView, ReplacedLines, GivenBody, StripLast, Plain, ReplaceMarkdownSection, HeadingLine,
         SectionHeadingAliases;
    var lines, aliases, h := DocumentLines(content), SectionHeadingAliases(heading), HeadingLine(heading);
    ReplacedIs(content, heading, markdown);
    DocumentLinesPlain(content);
    GivenBodyPlain(markdown);
    HeadingLineNotBlank(heading);
    ReplacedPlain(lines, aliases, h, GivenBody(markdown));
    RenderView(ReplacedLines(lines, aliases, h, GivenBody(markdown)));
    ReplacedView(lines, aliases, h, GivenBody(markdown));
  }

  // ---------------------------------------------------------- the last one wins

  lemma StripLastConcat(a: seq<string>, b: seq<string>)
    requires b != []
    ensures StripLast(a + b) == a + StripLast(b)
  {
    assert (a + b)[..|a + b| - 1] == a + b[..|b| - 1];
  }

  ghost predicate NoAtxHeading(lines: seq<string>) {
    forall l | l in lines :: !IsAtxHeading(l)
  }

  // The lines from the heading after the section on.
  function AfterSection(lines: seq<string>, aliases: seq<string>): seq<string> {
    var at := FindHeading(lines, aliases);
    if at == |lines| then [] else lines[FindSectionEnd(lines, at + 1)..]
  }

  // The written section ends where its body does: the body, as the text has it,
  // holds no heading, and the line after it is still one once the end of the text
  // is trimmed.
  ghost predicate EndsWithBody(body: seq<string>, after: seq<string>) {
    if after == [] then NoAtxHeading(StripLast(body))
    else NoAtxHeading(body) && IsAtxHeading(StripLast(after)[0])
  }

  lemma PiecesSlices(before: seq<string>, h: string, body: seq<string>, after: seq<string>)
    ensures var v, at, end := Pieces(before, h, body, after), |before|, |before| + 1 + |body|;
            && |v| == end + |after| && v[..at] == before && v[at] == h && v[at + 1..end] == body && v[end..] == after
  {
    PartsOfConcat(before, h, body, after);
  }

  // The section of these pieces ends with the body exactly when no line of the
  // body is a heading and the next one is.
  lemma SectionEndIff(before: seq<string>, h: string, body: seq<string>, after: seq<string>)
    ensures var v := Pieces(before, h, body, after);
            && |before| < |v|
            && (FindSectionEnd(v, |before| + 1) == |before| + 1 + |body| <==>
                NoAtxHeading(body) && (after != [] ==> IsAtxHeading(after[0])))
  {
    hide IsAtxHeading, FindSectionEnd, Pieces;
    var v, at, end := Pieces(before, h, body, after), |before|, |before| + 1 + |body|;
    PiecesSlices(before, h, body, after);
    FindSectionEndSpec(v, at + 1);
    var found := FindSectionEnd(v, at + 1);
    assert after != [] ==> v[end] == v[end..][0];
    if found == end {
      forall l | l in body ensures !IsAtxHeading(l) {
        var k :| 0 <= k < |body| && body[k] == l;
        assert v[at + 1..end][k] == v[at + 1 + k];
      }
    } else if found < end {
      assert v[found] == v[at + 1..end][found - at - 1];
    }
  }

  lemma FoundInPieces(before: seq<string>, aliases: seq<string>, h: string, body: seq<string>, after: seq<string>)
    requires NoHeading(before, aliases) && HeadingMatches(h, aliases)
    ensures FindHeading(Pieces(before, h, body, after), aliases) == |before| < |Pieces(before, h, body, after)|
  {
    hide HeadingMatches, FindHeading, Pieces;
    var v, at := Pieces(before, h, body, after), |before|;
    PiecesSlices(before, h, body, after);
    FindHeadingSpec(v, aliases);
    assert forall j | 0 <= j < at :: v[j] == v[..at][j];
  }

  // Trimming the end of the text trims the last piece.
  lemma StripPieces(before: seq<string>, h: string, body: seq<string>, after: seq<string>)
    requires TrimEnd(h) == h
    ensures StripLast(Pieces(before, h, body, after)) ==
        Pieces(before, h, if after == [] then StripLast(body) else body, StripLast(after))
  {
    hide TrimEnd;
    if after != [] {
      StripLastConcat(before + [h] + body, after);
    } else if body != [] {
      assert before + [h] + body + [] == before + [h] + body;
      StripLastConcat(before + [h], body);
      assert before + [h] + StripLast(body) + [] == before + [h] + StripLast(body);
    } else {
      assert before + [h] + [] + [] == before + [h];
      StripLastConcat(before, [h]);
      assert StripLast([h]) == [h];
    }
  }

  // Replacing the section of these pieces gives the pieces with the new body
  // exactly when the section ends with the old one.
  lemma ReplacePiecesIff(before: seq<string>, aliases: seq<string>, h: string, body: seq<string>, after: seq<string>,
                         next: seq<string>)
    requires NoHeading(before, aliases) && HeadingMatches(h, aliases) && TrimEnd(h) == h
    ensures StripLast(ReplaceView(Pieces(before, h, body, StripLast(after)), aliases, h, next)) ==
            StripLast(Pieces(before, h, next, after))
            <==> NoAtxHeading(body) && (after != [] ==> IsAtxHeading(StripLast(after)[0]))
  {
    hide IsAtxHeading, NoAtxHeading, HeadingMatches, FindHeading, FindSectionEnd, TrimEnd, Pieces, StripLast;
    var rest := StripLast(after);
    var v := Pieces(before, h, body, rest);
    FoundInPieces(before, aliases, h, body, rest);
    SectionEndIff(before, h, body, rest);
    PiecesSlices(before, h, body, rest);
    var end := FindSectionEnd(v, |before| + 1);
    PiecesSlices(before, h, next, v[end..]);
    PiecesSlices(before, h, next, after);
    StripPieces(before, h, next, after);
    StripPieces(before, h, next, rest);
    StripLastTwice(after);
    assert end != |before| + 1 + |body| ==> |v[end..]| != |after|;
  }

  lemma ReplaceTwiceIff(v: seq<string>, aliases: seq<string>, h: string, a: seq<string>, b: seq<string>)
    requires HeadingMatches(h, aliases) && TrimEnd(h) == h
    ensures StripLast(ReplaceView(StripLast(ReplaceView(v, aliases, h, a)), aliases, h, b)) ==
            StripLast(ReplaceView(v, aliases, h, b))
            <==> EndsWithBody(a, AfterSection(v, aliases))
  {
    hide IsAtxHeading, HeadingMatches, FindHeading, FindSectionEnd, TrimEnd, Pieces, NoAtxHeading;
    var at, after := FindHeading(v, aliases), AfterSection(v, aliases);
    FindHeadingSpec(v, aliases);
    var before := if at == |v| then v else v[..at];
    assert NoHeading(before, aliases);
    StripPieces(before, h, a, after);
    ReplacePiecesIff(before, aliases, h, if after == [] then StripLast(a) else a, after, b);
  }

  lemma TrimmedHeadingLine(heading: string)
    requires CanonicalHeading(heading)
    ensures TrimEnd(HeadingLine(heading)) == HeadingLine(heading)
  {
    var p := PreferredSectionHeading(heading);
    assert HeadingLine(heading)[|HeadingLine(heading)| - 1] == p[|p| - 1];
    TrimEndLast(HeadingLine(heading));
  }

  // Of two replacements of one section the last one wins, blank lines aside,
  // exactly when the first body leaves the section ending where it does.
  lemma ReplaceOverwritesIff(content: string, heading: string, first: string, second: string)
    requires CanonicalHeading(heading)
    ensures View(ReplaceMarkdownSection(ReplaceMarkdownSection(content, heading, first), heading, second)) ==
            View(ReplaceMarkdownSection(content, heading, second))
            <==> EndsWithBody(NonBlank(GivenBody(first)), AfterSection(View(content), SectionHeadingAliases(heading)))
  {
    var v, aliases, h := View(content), SectionHeadingAliases(heading), HeadingLine(heading);
    var a, b := NonBlank(GivenBody(first)), NonBlank(GivenBody(second));
    HeadingLineMatches(heading);
    hide View, NonBlank, GivenBody, ReplaceMarkdownSection, HeadingMatches, IsAtxHeading, Plain, CanonicalHeading,
         SectionHeadingAliases, HeadingLine, EndsWithBody, AfterSection;
    ReplaceText(content, heading, first);
    ReplaceText(content, heading, second);
    ReplaceText(ReplaceMarkdownSection(content, heading, first), heading, second);
    TrimmedHeadingLine(heading);
    ReplaceTwiceIff(v, aliases, h, a, b);
  }

  // A text of single lines that hold something, read.
  lemma ReadLines(content: string, lines: seq<string>)
    requires lines != [] && PlainLines(lines) && Join(lines) == content && forall l | l in lines :: !Blank(l)
    ensures DocumentLines(content) == lines && View(content) == lines
  {
    hide Blank, Join, Split;
    JoinHasNoReturn(lines);
    NormalizeNewlineFixed(content);
    SplitJoin(lines);
    NonBlankFixed(lines);
  }

  lemma LetterHeading()
    ensures CanonicalHeading("H") && HeadingLine("H") == "## H"
    ensures HeadingMatches("## H", SectionHeadingAliases("H"))
  {
    HeadingLineMatches("H");
    hide HeadingMatches, SectionHeadingAliases;
  }

  lemma LetterLine(c: char)
    requires 'x' <= c <= 'y'
    ensures Plain([c]) && !Blank([c]) && !IsSectionHeading([c]) && !IsAtxHeading([c]) && TrimEnd([c]) == [c]
  {
    TrimFixed([c]);
  }

  // A body with a heading leaves that heading, and what follows it, behind.
  lemma HeadingInBodyStays(second: string)
    ensures var once := ReplaceMarkdownSection("", "H", "x\n# y");
            View(ReplaceMarkdownSection(once, "H", second)) != View(ReplaceMarkdownSection("", "H", second))
  {
    LetterHeading();
    GivenHeading();
    EmptyAfter(SectionHeadingAliases("H"));
    hide View, NonBlank, GivenBody, ReplaceMarkdownSection, IsAtxHeading, CanonicalHeading, SectionHeadingAliases,
         AfterSection;
    ReplaceOverwritesIff("", "H", "x\n# y", second);
  }

  lemma GivenHeading()
    ensures var a := NonBlank(GivenBody("x\n# y")); !NoAtxHeading(StripLast(a))
  {
    var lines := ["x", "# y"];
    LetterLine('x');
    assert !Blank("# y") by { NotBlankStart("# y"); }
    assert Join(lines) == "x\n# y" by { assert lines[1..] == ["# y"]; }
    assert IsAtxHeading("# y") by { assert "# y"[1..] == " y"; }
    NotBlankEnd("# y");
    hide IsAtxHeading, Blank, Join, IsSectionHeading, TrimEnd;
    ReadLines("x\n# y", lines);
    NonBlankFixed(lines);
    assert StripLast(lines)[1] == "# y";
  }

  lemma EmptyAfter(aliases: seq<string>)
    ensures AfterSection(View(""), aliases) == []
  {
    SplitEmpty();
    NonBlankSnoc([], "");
    NonBlankOfNone();
  }

  // A heading of hashes and a space at the end of the text is none once the
  // space is trimmed, and the next replacement takes it away.
  lemma BareHeadingIsTaken(second: string)
    ensures var content := "## H\nx\n# ";
            var once := ReplaceMarkdownSection(content, "H", "y");
            View(ReplaceMarkdownSection(once, "H", second)) != View(ReplaceMarkdownSection(content, "H", second))
  {
    LetterHeading();
    BareAfter();
    hide View, NonBlank, GivenBody, ReplaceMarkdownSection, IsAtxHeading, CanonicalHeading, SectionHeadingAliases,
         AfterSection, TrimEnd;
    ReplaceOverwritesIff("## H\nx\n# ", "H", "y", second);
  }

  lemma BareAfter()
    ensures var after := AfterSection(View("## H\nx\n# "), SectionHeadingAliases("H"));
            after != [] && !IsAtxHeading(StripLast(after)[0])
  {
    BareLines();
    BareSection();
    BareHeading();
    hide IsAtxHeading, View, TrimEnd, SectionHeadingAliases, AfterSection, SectionAt;
    AfterTwo(["## H", "x", "# "], SectionHeadingAliases("H"));
    assert StripLast(["# "]) == ["#"];
  }

  lemma AfterTwo(lines: seq<string>, aliases: seq<string>)
    requires |lines| == 3 && SectionAt(lines, aliases, 0, 2)
    ensures AfterSection(lines, aliases) == [lines[2]]
  {
    hide SectionAt, FindHeading, FindSectionEnd;
    SectionFound(lines, aliases, 0, 2);
  }

  lemma BareSection()
    ensures SectionAt(["## H", "x", "# "], SectionHeadingAliases("H"), 0, 2)
  {
    LetterHeading();
    LetterLine('x');
    BareHeading();
    hide IsAtxHeading, HeadingMatches, SectionHeadingAliases;
  }

  lemma BareLines()
    ensures View("## H\nx\n# ") == ["## H", "x", "# "]
  {
    var lines := ["## H", "x", "# "];
    LetterLine('x');
    NotBlankStart("## H");
    NotBlankStart("# ");
    assert Join(lines) == "## H\nx\n# " by {
      assert lines[1..] == ["x", "# "] && lines[1..][1..] == ["# "];
      assert "## H" + "\n" + ("x" + "\n" + "# ") == "## H\nx\n# ";
    }
    hide Blank, Join, View, IsSectionHeading, IsAtxHeading, TrimEnd;
    ReadLines("## H\nx\n# ", lines);
  }

  lemma BareHeading()
    ensures IsAtxHeading("# ") && !IsAtxHeading("#") && TrimEnd("# ") == "#"
  {
    assert "# "[1..] == " " && "# "[..1] == "#" && "#"[1..] == "";
  }

  // -------------------------------------------------------------- front matter

  predicate Opens(content: string) {
    DocumentLines(content)[0] == "---"
  }

  // The lines of the front matter block, and the rest from its closing fence on;
  // a text without a block is given an empty one.
  function Front(opens: bool, lines: seq<string>): (seq<string>, seq<string>)
    requires opens ==> lines != []
  {
    if !opens then ([], ["---"] + lines)
    else
      var end := FindFence(lines, 1);
      if end == |lines| then ([], ["---"] + lines[1..]) else (lines[1..end], lines[end..])
  }

  // The block with the key's line set, or added at its end.
  function SetKey(block: seq<string>, key: string, line: string): seq<string> {
    var at := FindKey(block, key);
    if at < |block| then block[at := line] else block + [line]
  }

  function FrontView(opens: bool, lines: seq<string>, key: string, line: string): seq<string>
    requires opens ==> lines != []
  {
    var (block, rest) := Front(opens, lines);
    ["---"] + SetKey(block, key, line) + rest
  }

  ghost predicate NoFence(lines: seq<string>) {
    forall i | 0 <= i < |lines| :: Trim(lines[i]) != "---"
  }

  lemma {:induction false} FindFenceSpec(lines: seq<string>, from: nat)
    requires from <= |lines|
    ensures var i := FindFence(lines, from);
            && (i < |lines| ==> Trim(lines[i]) == "---") && NoFence(lines[from..i])
    decreases |lines| - from
  {
    hide Trim;
    if from < |lines| && Trim(lines[from]) != "---" {
      FindFenceSpec(lines, from + 1);
      var i := FindFence(lines, from + 1);
      assert lines[from..i] == [lines[from]] + lines[from + 1..i];
    } else {
      assert lines[from..from] == [];
    }
  }

  lemma FenceAt(lines: seq<string>, from: nat, i: nat)
    requires from <= i <= |lines| && NoFence(lines[from..i]) && (i < |lines| ==> Trim(lines[i]) == "---")
    ensures FindFence(lines, from) == i
    decreases i - from
  {
    hide Trim;
    if from < i {
      assert lines[from..i][0] == lines[from] && lines[from..i][1..] == lines[from + 1..i];
      FenceAt(lines, from + 1, i);
    }
  }

  lemma {:induction false} FindKeySpec(lines: seq<string>, key: string)
    ensures var i := FindKey(lines, key);
            && (i < |lines| ==> StartsWith(Trim(lines[i]), key + ":"))
            && forall j | 0 <= j < i :: !StartsWith(Trim(lines[j]), key + ":")
  {
    hide Trim, StartsWith;
    if lines != [] && !StartsWith(Trim(lines[0]), key + ":") { FindKeySpec(lines[1..], key); }
  }

  lemma {:induction false} KeyAt(lines: seq<string>, key: string, i: nat)
    requires i <= |lines| && (i < |lines| ==> StartsWith(Trim(lines[i]), key + ":"))
    requires forall j | 0 <= j < i :: !StartsWith(Trim(lines[j]), key + ":")
    ensures FindKey(lines, key) == i
  {
    hide Trim, StartsWith;
    if i > 0 { KeyAt(lines[1..], key, i - 1); }
  }

  // A line that upsertMarkdownFrontmatter writes for the key.
  ghost predicate KeyLine(key: string, line: string) {
    Plain(line) && !Blank(line) && StartsWith(Trim(line), key + ":") && Trim(line) != "---"
  }

  lemma WrittenLine(key: string, scalar: string)
    requires CleanKey(key) != "" && Plain(scalar)
    ensures KeyLine(CleanKey(key), CleanKey(key) + ": " + scalar)
  {
    var k := CleanKey(key);
    hide CleanKey;
    KeyCharsOnly(key);
    var h := k + ":";
    var line := k + ": " + scalar;
    assert line == h + (" " + scalar);
    assert line[0] == k[0] && KeyChar(k[0]);
    assert TrimStart(line) == line;
    assert h[|h| - 1] == ':';
    TrimEndOfTail(h, " " + scalar);
    NotBlankStart(line);
    assert Plain(line) by {
      assert forall c | c in line :: c in k || c == ':' || c == ' ' || c in scalar;
    }
    assert Trim(line)[|k|] == ':';
    var t := Trim(line);
    assert ':' in t && ':' !in "---";
  }

  lemma KeyCharsOnly(key: string)
    ensures forall c | c in CleanKey(key) :: KeyChar(c)
  {
    var k := CleanKey(key);
    assert forall i | 0 <= i < |k| :: KeyChar(k[i]);
  }

  lemma {:induction false} NonBlankUpdate(lines: seq<string>, i: nat, line: string)
    requires i < |lines| && !Blank(lines[i]) && !Blank(line)
    ensures var w, k := NonBlank(lines), |NonBlank(lines[..i])|;
            k < |w| && w[k] == lines[i] && NonBlank(lines[i := line]) == w[k := line]
  {
    hide NonBlank, Blank;
    var w, k, u := NonBlank(lines), |NonBlank(lines[..i])|, lines[i := line];
    NonBlankCut(lines, i);
    NonBlankHead(lines[i..]);
    NonBlankCut(u, i);
    NonBlankHead(u[i..]);
    assert u[..i] == lines[..i] && u[i..][1..] == lines[i..][1..];
    var x := NonBlank(u);
    assert x[..k] == w[..k] && x[k..][0] == line && x[k..][1..] == w[k..][1..];
    assert x == x[..k] + ([x[k..][0]] + x[k..][1..]) && w == w[..k] + ([w[k..][0]] + w[k..][1..]);
  }

  lemma SetKeyView(block: seq<string>, key: string, line: string)
    requires KeyLine(key, line)
    ensures NonBlank(SetKey(block, key, line)) == SetKey(NonBlank(block), key, line)
  {
    hide NonBlank, FindKey, StartsWith, Trim;
    var at, w := FindKey(block, key), NonBlank(block);
    FindKeySpec(block, key);
    NonBlankSound(block[..at]);
    NonBlankCut(block, at);
    var k := |NonBlank(block[..at])|;
    assert forall j | 0 <= j < k :: w[j] == w[..k][j] && w[j] in NonBlank(block[..at]);
    if at < |block| {
      StartNotBlank(block[at], key);
      NonBlankUpdate(block, at, line);
      KeyAt(w, key, k);
    } else {
      assert block[..at] == block;
      KeyAt(w, key, |w|);
      NonBlankSnoc(block, line);
    }
  }

  lemma StartNotBlank(line: string, key: string)
    requires StartsWith(Trim(line), key + ":")
    ensures !Blank(line)
  {
    assert |key + ":"| > 0;
    hide Trim;
  }

  // Setting a key twice leaves the second line in place of the first.
  lemma SetKeyTwice(block: seq<string>, key: string, first: string, second: string)
    requires KeyLine(key, first)
    ensures SetKey(SetKey(block, key, first), key, second) == SetKey(block, key, second)
  {
    hide FindKey, StartsWith, Trim;
    var at, once := FindKey(block, key), SetKey(block, key, first);
    FindKeySpec(block, key);
    assert forall j | 0 <= j < at :: once[j] == block[j];
    KeyAt(once, key, at);
    if at == |block| { assert once[at := second] == block + [second]; }
  }

  lemma SetKeyNoFence(block: seq<string>, key: string, line: string)
    requires NoFence(block) && KeyLine(key, line)
    ensures NoFence(SetKey(block, key, line))
  {
    hide FindKey, Trim, StartsWith;
  }

  // The lines upsertMarkdownFrontmatter joins, in the same parts.
  function RawParts(lines: seq<string>): (seq<string>, seq<string>)
    requires lines != []
  {
    if lines[0] != "---" then ([], ["---", ""] + lines)
    else
      var end := FindFence(lines, 1);
      if end == |lines| then ([], ["---", ""] + lines[1..]) else (lines[1..end], lines[end..])
  }

  function FrontLines(lines: seq<string>, key: string, line: string): seq<string>
    requires lines != []
  {
    var (block, rest) := RawParts(lines);
    ["---"] + SetKey(block, key, line) + rest
  }

  lemma SliceUpdate<T>(s: seq<T>, from: nat, to: nat, i: nat, x: T)
    requires from <= to <= |s| && from + i < to
    ensures s[from + i := x] == s[..from] + s[from..to][i := x] + s[to..]
  {
  }

  lemma SliceInsert<T>(s: seq<T>, from: nat, to: nat, x: T)
    requires from <= to <= |s|
    ensures s[..to] + [x] + s[to..] == s[..from] + (s[from..to] + [x]) + s[to..]
  {
  }

  lemma FrontmatterIs(content: string, key: string, scalar: string)
    requires CleanKey(key) != ""
    ensures UpsertMarkdownFrontmatter(content, key, scalar) ==
            Render(FrontLines(DocumentLines(content), CleanKey(key), CleanKey(key) + ": " + scalar))
  {
    hide CleanKey, Render, FindFence, FindKey, Split, NormalizeNewline;
    var lines, line := DocumentLines(content), CleanKey(key) + ": " + scalar;
    var none: seq<string> := [];
    assert FindKey(none, CleanKey(key)) == 0 && none + [line] == [line];
    if lines[0] != "---" {
      assert ["---"] + [line] + (["---", ""] + lines) == ["---", line, "---", ""] + lines;
    } else {
      var end := FindFence(lines, 1);
      if end == |lines| {
        assert ["---"] + [line] + (["---", ""] + lines[1..]) == ["---", line, "---", ""] + lines[1..];
      } else {
        var at := FindKey(lines[1..end], CleanKey(key));
        assert lines[..1] == ["---"];
        if at < |lines[1..end]| { SliceUpdate(lines, 1, end, at, line); } else { SliceInsert(lines, 1, end, line); }
      }
    }
  }

  lemma FenceNotBlank(line: string)
    requires Trim(line) == "---"
    ensures !Blank(line)
  {
  }

  lemma DashesOpen()
    ensures Trim("---") == "---" && !Blank("---") && Blank("")
  {
    TrimFixed("---");
  }

  lemma BlockView(lines: seq<string>, end: nat)
    requires lines != [] && lines[0] == "---" && 1 <= end <= |lines|
    ensures var w, block, rest := NonBlank(lines), NonBlank(lines[1..end]), NonBlank(lines[end..]);
            && |w| == 1 + |block| + |rest| && w[1..] == block + rest
            && w[1..1 + |block|] == block && w[1 + |block|..] == rest
  {
    hide NonBlank, Blank;
    DashesOpen();
    NonBlankHead(lines);
    NonBlankConcat(lines[1..end], lines[end..]);
    assert lines[1..] == lines[1..end] + lines[end..];
    var w, block, rest := NonBlank(lines), NonBlank(lines[1..end]), NonBlank(lines[end..]);
    assert w[1..][..|block|] == block && w[1..][|block|..] == rest;
    DropDrop(w, 1, |block|);
  }

  lemma FenceView(lines: seq<string>)
    requires lines != [] && lines[0] == "---"
    ensures var end := FindFence(lines, 1);
            && NonBlank(lines) != [] && NoFence(lines[1..end])
            && FindFence(NonBlank(lines), 1) == 1 + |NonBlank(lines[1..end])|
            && (end < |lines| ==> Trim(lines[end]) == "---" && NonBlank(lines[end..]) != [])
  {
    hide NonBlank, Blank, Trim, FindFence;
    var w, end := NonBlank(lines), FindFence(lines, 1);
    FindFenceSpec(lines, 1);
    BlockView(lines, end);
    NoFenceView(lines[1..end]);
    var n := 1 + |NonBlank(lines[1..end])|;
    if end < |lines| {
      FenceNotBlank(lines[end]);
      NonBlankHead(lines[end..]);
      assert w[n] == w[n..][0] == lines[end];
    } else {
      assert lines[end..] == [];
      NonBlankOfNone();
      assert |w| == n;
    }
    assert w[1..n] == NonBlank(lines[1..end]);
    FenceAt(w, 1, n);
  }

  // Dropping blank lines keeps the parts.
  lemma PartsView(lines: seq<string>)
    requires lines != []
    ensures lines[0] == "---" ==> NonBlank(lines) != []
    ensures var (block, rest) := RawParts(lines);
            && Front(lines[0] == "---", NonBlank(lines)) == (NonBlank(block), NonBlank(rest))
            && NoFence(block) && rest != [] && Trim(rest[0]) == "---"
  {
    hide NonBlank, Blank, Trim, FindFence;
    DashesOpen();
    NonBlankOfNone();
    DashesAndBlank();
    if lines[0] == "---" {
      var end := FindFence(lines, 1);
      FenceView(lines);
      BlockView(lines, end);
      if end == |lines| {
        BlockView(lines, 1);
        NonBlankConcat(["---", ""], lines[1..]);
        assert lines[1..1] == [] && lines[end..] == [];
      }
    } else {
      NonBlankConcat(["---", ""], lines);
    }
  }

  lemma DashesAndBlank()
    ensures NonBlank(["---", ""]) == ["---"]
  {
    DashesOpen();
    hide Blank;
    assert ["---", ""][1..] == [""] && [""][1..] == [];
  }

  lemma NoFenceView(lines: seq<string>)
    requires NoFence(lines)
    ensures NoFence(NonBlank(lines))
  {
    hide Trim, NonBlank, Blank;
    NonBlankSound(lines);
    var w := NonBlank(lines);
    assert forall k | 0 <= k < |w| :: w[k] in lines;
  }

  lemma FrontLinesView(lines: seq<string>, key: string, line: string)
    requires lines != [] && KeyLine(key, line)
    ensures lines[0] == "---" ==> NonBlank(lines) != []
    ensures NonBlank(FrontLines(lines, key, line)) == FrontView(lines[0] == "---", NonBlank(lines), key, line)
  {
    hide NonBlank, Front, RawParts, SetKey, KeyLine, NoFence, Trim;
    PartsView(lines);
    var (block, rest) := RawParts(lines);
    SetKeyView(block, key, line);
    DashesOpen();
    NonBlankConcat(["---"] + SetKey(block, key, line), rest);
    NonBlankConcat(["---"], SetKey(block, key, line));
    NonBlankFixed(["---"]);
  }

  lemma FrontLinesPlain(lines: seq<string>, key: string, line: string)
    requires lines != [] && PlainLines(lines) && Plain(line)
    ensures PlainLines(FrontLines(lines, key, line))
  {
    hide Plain, FindKey, FindFence;
    EmptyIsPlain();
    DashesArePlain();
    var (block, rest) := RawParts(lines);
    assert PlainLines(block) && PlainLines(rest);
    PlainConcat(["---"], SetKey(block, key, line));
    PlainConcat(["---"] + SetKey(block, key, line), rest);
  }

  lemma DashesArePlain()
    ensures Plain("---")
  {
  }

  lemma CollapseCons(c: char, t: string)
    ensures CollapseRuns([c] + t, 0) == [c] + CollapseRuns(t, if c == '\n' then 1 else 0)
  {
    assert ([c] + t)[1..] == t;
  }

  lemma CollapseDashes(u: string)
    ensures CollapseRuns("---" + ("\n" + u), 0) == "---" + ("\n" + CollapseRuns(u, 1))
  {
    hide CollapseRuns;
    CollapseCons('\n', u);
    var a := ['\n'] + u;
    CollapseCons('-', a);
    CollapseCons('-', ['-'] + a);
    CollapseCons('-', ['-'] + (['-'] + a));
    assert "---" + ("\n" + u) == ['-'] + (['-'] + (['-'] + a));
    var b := ['\n'] + CollapseRuns(u, 1);
    assert "---" + ("\n" + CollapseRuns(u, 1)) == ['-'] + (['-'] + (['-'] + b));
  }

  lemma TrimmedOpens(y: string)
    ensures Split(TrimEnd("---" + ("\n" + y)) + "\n")[0] == "---"
  {
    SplitDashes();
    hide Split;
    TrimEndOfTail("---", "\n" + y);
    TrimEndHeads("\n" + y);
    var t := TrimEnd("\n" + y);
    hide TrimEnd;
    if t == "" {
      assert "---" + t + "\n" == "---" + "\n" + "";
      SplitConcat("---", "");
    } else {
      assert t == "\n" + t[1..];
      assert "---" + t + "\n" == "---" + "\n" + (t[1..] + "\n");
      SplitConcat("---", t[1..] + "\n");
    }
  }

  // The rendered text opens with the same first line.
  lemma RenderOpens(lines: seq<string>)
    requires |lines| > 1 && lines[0] == "---" && PlainLines(lines)
    ensures Opens(Render(lines))
  {
    var u := Join(lines[1..]);
    hide Split, CollapseRuns, TrimEnd, NormalizeNewline;
    assert Join(lines) == "---" + ("\n" + u) by {
      assert "---" + "\n" + u == "---" + ("\n" + u);
    }
    CollapseDashes(u);
    TrimmedOpens(CollapseRuns(u, 1));
    RenderLines(lines);
  }

  lemma SplitDashes()
    ensures Split("---") == ["---"]
  {
    SplitPrepend("---", "");
    SplitEmpty();
    assert "---" + "" == "---";
  }

  lemma TrimEndHeads(s: string)
    ensures TrimEnd(s) != "" ==> TrimEnd(s)[0] == s[0]
  {
  }

  // Setting a key changes its line in the front matter block, or adds it there,
  // and no other line; a text without a block gets one.
  lemma FrontmatterText(content: string, key: string, scalar: string)
    requires CleanKey(key) != "" && Plain(scalar)
    ensures Opens(content) ==> View(content) != []
    ensures var t := UpsertMarkdownFrontmatter(content, key, scalar);
            && Opens(t)
            && View(t) == StripLast(FrontView(Opens(content), View(content), CleanKey(key),
                                              CleanKey(key) + ": " + scalar))
  {
    var lines, k, line := DocumentLines(content), CleanKey(key), CleanKey(key) + ": " + scalar;
    DocumentLinesPlain(content);
    FrontmatterIs(content, key, scalar);
    WrittenLine(key, scalar);
    hide CleanKey, Render, Trim, StripLast, NonBlank, UpsertMarkdownFrontmatter;
    FrontLinesPlain(lines, k, line);
    FrontLinesView(lines, k, line);
    var out := FrontLines(lines, k, line);
    PartsView(lines);
    assert out[0] == "---" && |out| > 1;
    RenderView(out);
    RenderOpens(out);
  }

  // The parts after a first write are the block it wrote and the same rest.
  lemma PartsAfter(block: seq<string>, rest: seq<string>, key: string, line: string)
    requires NoFence(block) && rest != [] && Trim(rest[0]) == "---" && KeyLine(key, line)
    ensures var v := StripLast(["---"] + SetKey(block, key, line) + rest);
            v != [] && Front(true, v) == (SetKey(block, key, line), StripLast(rest))
  {
    var written := SetKey(block, key, line);
    var v := StripLast(["---"] + written + rest);
    SetKeyNoFence(block, key, line);
    TrimOfTrimEnd(rest[0]);
    hide Trim, TrimEnd, SetKey, FindFence;
    StripLastConcat(["---"] + written, rest);
    var r := StripLast(rest);
    assert r != [] && Trim(r[0]) == "---";
    assert v == ["---"] + written + r;
    assert v[1..1 + |written|] == written && v[1 + |written|..] == r && v[1 + |written|] == r[0];
    FenceAt(v, 1, 1 + |written|);
  }

  lemma FrontTwice(opens: bool, v: seq<string>, key: string, first: string, second: string)
    requires (opens ==> v != []) && KeyLine(key, first)
    ensures var w := StripLast(FrontView(opens, v, key, first));
            w != [] && StripLast(FrontView(true, w, key, second)) == StripLast(FrontView(opens, v, key, second))
  {
    var (block, rest) := Front(opens, v);
    FrontParts(opens, v);
    hide Front, SetKey, KeyLine, NoFence, Trim;
    PartsAfter(block, rest, key, first);
    SetKeyTwice(block, key, first, second);
    var written := SetKey(block, key, second);
    StripLastConcat(["---"] + written, rest);
    StripLastConcat(["---"] + written, StripLast(rest));
    StripLastTwice(rest);
  }

  lemma FrontParts(opens: bool, v: seq<string>)
    requires opens ==> v != []
    ensures var (block, rest) := Front(opens, v);
            NoFence(block) && rest != [] && Trim(rest[0]) == "---"
  {
    DashesOpen();
    hide Trim, FindFence;
    if opens { FindFenceSpec(v, 1); }
  }

  // Of two writes to one key the last one wins, blank lines aside.
  lemma FrontmatterLastWriteWins(content: string, key: string, first: string, second: string)
    requires Plain(first) && Plain(second)
    ensures View(UpsertMarkdownFrontmatter(UpsertMarkdownFrontmatter(content, key, first), key, second)) ==
            View(UpsertMarkdownFrontmatter(content, key, second))
  {
    var k := CleanKey(key);
    if k == "" {
      EnsureTrailingNewlineIdempotent(content);
    } else {
      hide CleanKey, UpsertMarkdownFrontmatter, View, Opens, FrontView, StripLast, KeyLine, Plain;
      WrittenLine(key, first);
      FrontmatterText(content, key, first);
      FrontmatterText(content, key, second);
      FrontmatterText(UpsertMarkdownFrontmatter(content, key, first), key, second);
      FrontTwice(Opens(content), View(content), k, k + ": " + first, k + ": " + second);
    }
  }
}
