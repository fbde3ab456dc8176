// Import and export of a consensus as Markdown in server/knowledge-space.js: the
// splitter turns a text into a root document and one document per level-2
// heading, and the exporter writes them back as one text.
module KnowledgeMarkdown {
  import opened Text
  import opened Wrappers

  // ------------------------------------------------------------- the lines

  predicate Escapable(c: char) {
    || c == '\\' || c == '`' || c == '*' || c == '_' || c == '{' || c == '}' || c == '[' || c == ']' || c == '('
    || c == ')' || c == '#' || c == '+' || c == '-' || c == '.' || c == '!' || c == '|' || c == '>'
  }

  // decodeMarkdownEscapes
  function Decode(s: string): string {
    if s == "" then ""
    else if s[0] == '\\' && |s| > 1 && Escapable(s[1]) then [s[1]] + Decode(s[2..])
    else [s[0]] + Decode(s[1..])
  }

  function Marks(level: nat): (r: string)
    ensures |r| == level
  {
    if level == 0 then "" else "#" + Marks(level - 1)
  }

  // The trimmed title of a line that matches /^#{level}\s+(.+)$/. The capture
  // starts after the white space, or at the last character if that is all white.
  function Heading(line: string, level: nat): Option<string> {
    if |line| < level + 2 || line[..level] != Marks(level) || !IsSpace(line[level]) then None
    else
      var rest := TrimStart(line[level..]);
      if NoTerminator(if rest != "" then rest else line[|line| - 1..]) then Some(Trim(line[level..])) else None
  }

  predicate IsFence(line: string) {
    StartsWith(Trim(line), "```")
  }

  // The number of leading characters a run of dots matches.
  function DotRun(s: string): (n: nat)
    ensures n <= |s|
  {
    if s == "" || IsLineTerminator(s[0]) then 0 else 1 + DotRun(s[1..])
  }

  // Where /^#{level}\s+.+(?:\n+|$)/ ends, but for the newlines that are trimmed
  // next; the white space gives characters back until the rest matches.
  function HeadingEnd(text: string, level: nat, k: nat): (r: Option<nat>)
    requires level < k <= |text|
    ensures r.Some? ==> r.value <= |text|
    decreases k
  {
    var e := k + DotRun(text[k..]);
    if e > k && (e == |text| || text[e] == '\n') then Some(e)
    else if k == level + 1 then None
    else HeadingEnd(text, level, k - 1)
  }

  // stripLeadingMarkdownHeading
  function StripHeading(markdown: string, level: nat): string {
    AfterHeading(Trim(NormalizeNewline(markdown)), level)
  }

  function AfterHeading(text: string, level: nat): string {
    if |text| <= level || text[..level] != Marks(level) || !IsSpace(text[level]) then text
    else
      var rest := TrimStart(text[level..]);
      if |rest| >= |text| - level then text
      else match HeadingEnd(text, level, |text| - |rest|)
        case None => text
        case Some(e) => Trim(text[e..])
  }

  // How far a run of characters other than `stop` goes.
  function RunUntil(s: string, stop: char): (n: nat)
    ensures n <= |s|
  {
    if s == "" || s[0] == stop then 0 else 1 + RunUntil(s[1..], stop)
  }

  // /^\s*[-*]\s+\[[^\]]+\]\(#[^)]+\)\s*$/
  predicate IsLinkLine(line: string) {
    var a := TrimStart(line);
    && |a| > 1 && (a[0] == '-' || a[0] == '*') && IsSpace(a[1])
    && var b := TrimStart(a[1..]);
    && b != "" && b[0] == '['
    && var c := b[1..];
    && var n := RunUntil(c, ']');
    && n > 0 && StartsWith(c[n..], "](#")
    && var d := c[n + 3..];
    && var m := RunUntil(d, ')');
    && m > 0 && m < |d| && TrimStart(d[m + 1..]) == ""
  }

  function DropLinkLines(lines: seq<string>): seq<string> {
    if lines == [] then []
    else (if IsLinkLine(lines[0]) then [] else [lines[0]]) + DropLinkLines(lines[1..])
  }

  // stripGeneratedRootDocumentLinks
  function StripLinks(markdown: string): string {
    Trim(CollapseRuns(Join(DropLinkLines(Split(NormalizeNewline(markdown)))), 0))
  }

  // ----------------------------------------------------------- the splitter

  datatype Part = Part(title: string, lines: seq<string>)
  datatype State = State(title: string, root: seq<string>, sections: seq<Part>, inCode: bool)

  const START := State("", [], [], false)

  function Push(s: State, line: string): State {
    if s.sections == [] then s.(root := s.root + [line])
    else
      var last := s.sections[|s.sections| - 1];
      s.(sections := s.sections[|s.sections| - 1 := last.(lines := last.lines + [line])])
  }

  predicate TakesTitle(s: State, line: string) {
    !s.inCode && s.title == "" && Heading(line, 1).Some?
  }

  predicate OpensSection(s: State, line: string) {
    !TakesTitle(s, line) && !s.inCode && Heading(line, 2).Some?
  }

  // The body of the loop. A heading line is never a fence.
  function Step(s: State, line: string): State {
    if TakesTitle(s, line) then s.(title := Decode(Heading(line, 1).value), root := s.root + [line])
    else if OpensSection(s, line) then s.(sections := s.sections + [Part(Decode(Heading(line, 2).value), [line])])
    else Push(s, line).(inCode := s.inCode != IsFence(line))
  }

  function Fold(s: State, lines: seq<string>): State
    decreases lines
  {
    if lines == [] then s else Fold(Step(s, lines[0]), lines[1..])
  }

  datatype Section = Section(title: string, markdown: string)
  datatype Consensus = Consensus(title: string, markdown: string, sections: seq<Section>)

  function PartSection(p: Part): Section {
    Section(p.title, Trim(Join(p.lines)))
  }

  function PartSections(parts: seq<Part>): (r: seq<Section>)
    ensures |r| == |parts|
  {
    seq(|parts|, i requires 0 <= i < |parts| => PartSection(parts[i]))
  }

  function Finished(s: State): Consensus {
    Consensus(if s.title == "" then "Knowledge Space" else s.title, Trim(Join(s.root)), PartSections(s.sections))
  }

  function SplitByHeadings(markdown: string): Consensus {
    Finished(Fold(START, Split(NormalizeNewline(markdown))))
  }

  lemma {:induction false} FoldConcat(s: State, a: seq<string>, b: seq<string>)
    ensures Fold(s, a + b) == Fold(Fold(s, a), b)
    decreases a
  {
    hide Step;
    if a == [] {
      assert a + b == b;
    } else {
      assert (a + b)[1..] == a[1..] + b;
      FoldConcat(Step(s, a[0]), a[1..], b);
    }
  }

  lemma FoldSnoc(s: State, a: seq<string>, line: string)
    ensures Fold(s, a + [line]) == Step(Fold(s, a), line)
  {
    FoldConcat(s, a, [line]);
    var one := [line];
    assert one[1..] == [];
    hide Step;
    assert Fold(Fold(s, a), one) == Fold(Step(Fold(s, a), line), []);
  }

  method SplitMarkdownByHeadings(markdown: string) returns (c: Consensus)
    ensures c == SplitByHeadings(markdown)
  {
    hide Heading, IsFence, Decode;
    var lines := Split(NormalizeNewline(markdown));
    var rootTitle, rootLines, h2Sections, inCode := "", [], [], false;
    for i := 0 to |lines|
      invariant State(rootTitle, rootLines, h2Sections, inCode) == Fold(START, lines[..i])
    {
      TakeNext(lines, i);
      FoldSnoc(START, lines[..i], lines[i]);
      hide Fold;
      var line := lines[i];
      var fence := IsFence(line);
      if !inCode {
        var h1, h2 := Heading(line, 1), Heading(line, 2);
        if h1.Some? && rootTitle == "" {
          rootTitle := Decode(h1.value);
          rootLines := rootLines + [line];
          continue;
        }
        if h2.Some? {
          h2Sections := h2Sections + [Part(Decode(h2.value), [line])];
          continue;
        }
      }
      if h2Sections != [] {
        var current := h2Sections[|h2Sections| - 1];
        h2Sections := h2Sections[|h2Sections| - 1 := current.(lines := current.lines + [line])];
      } else {
        rootLines := rootLines + [line];
      }
      if fence { inCode := !inCode; }
    }
    assert lines[..|lines|] == lines;
    if rootTitle == "" { rootTitle := "Knowledge Space"; }
    c := Consensus(rootTitle, Trim(Join(rootLines)), PartSections(h2Sections));
  }

  // A heading line is no fence, so the toggles beside `continue` never fire.
  lemma HeadingIsNoFence(line: string, level: nat)
    requires level > 0 && Heading(line, level).Some?
    ensures !IsFence(line)
  {
    assert line[0] == line[..level][0] == '#';
    TrimEndKeepsFirst(line);
  }

  // ---------------------------------------- every line goes to exactly one part

  // The part a line goes to: 0 for the root, k for the k-th section.
  function Owner(s: State, line: string): nat {
    if TakesTitle(s, line) then 0
    else if OpensSection(s, line) then |s.sections| + 1
    else |s.sections|
  }

  function Owners(s: State, lines: seq<string>): (r: seq<nat>)
    ensures |r| == |lines|
    decreases lines
  {
    if lines == [] then [] else [Owner(s, lines[0])] + Owners(Step(s, lines[0]), lines[1..])
  }

  function Select(lines: seq<string>, owners: seq<nat>, k: nat): seq<string>
    requires |owners| == |lines|
  {
    if lines == [] then []
    else (if owners[0] == k then [lines[0]] else []) + Select(lines[1..], owners[1..], k)
  }

  function LinesAt(s: State, k: nat): seq<string> {
    if k == 0 then s.root else if k <= |s.sections| then s.sections[k - 1].lines else []
  }

  lemma StepGives(s: State, line: string, k: nat)
    ensures LinesAt(Step(s, line), k) == LinesAt(s, k) + (if Owner(s, line) == k then [line] else [])
    ensures Owner(s, line) <= |Step(s, line).sections| <= |s.sections| + 1
    ensures |s.sections| <= |Step(s, line).sections|
  {
    hide Heading, IsFence, Decode;
  }

  // Each part holds exactly the lines owned by it, in their order; owners name
  // parts that exist, and only a title line goes back to the root.
  lemma {:induction false} LinesArePartitioned(s: State, lines: seq<string>, k: nat)
    ensures var owners := Owners(s, lines);
            && LinesAt(Fold(s, lines), k) == LinesAt(s, k) + Select(lines, owners, k)
            && |s.sections| <= |Fold(s, lines).sections|
            && (forall i | 0 <= i < |lines| :: owners[i] <= |Fold(s, lines).sections|)
    decreases lines
  {
    hide Step, Owner, LinesAt;
    if lines != [] {
      StepGives(s, lines[0], k);
      LinesArePartitioned(Step(s, lines[0]), lines[1..], k);
    }
  }

  // ------------------------------------------------------------- the export

  function Or(a: string, b: string): string {
    if a != "" then a else b
  }

  function Optional(body: string): seq<string> {
    if body == "" then [] else [body]
  }

  function RootChunks(title: string, markdown: string): seq<string> {
    ["# " + Decode(Or(title, "Consensus"))] + Optional(StripLinks(StripHeading(markdown, 1)))
  }

  function SectionChunks(s: Section): seq<string> {
    ["## " + Decode(Or(s.title, "Section"))] + Optional(StripHeading(s.markdown, 2))
  }

  function AllSectionChunks(sections: seq<Section>): seq<string> {
    if sections == [] then []
    else AllSectionChunks(sections[..|sections| - 1]) + SectionChunks(sections[|sections| - 1])
  }

  // map(trim) and filter(Boolean)
  function Kept(chunks: seq<string>): seq<string> {
    if chunks == [] then [] else Optional(Trim(chunks[0])) + Kept(chunks[1..])
  }

  // exportKnowledgeConsensusMarkdown; sections are the root's children in order.
  function Export(c: Consensus): string {
    JoinWith(Kept(RootChunks(c.title, c.markdown) + AllSectionChunks(c.sections)), "\n\n") + "\n"
  }

  method ExportKnowledgeConsensusMarkdown(c: Consensus) returns (markdown: string)
    ensures markdown == Export(c)
  {
    hide StripHeading, StripLinks, Decode, Kept, JoinWith;
    var chunks := ["# " + Decode(if c.title != "" then c.title else "Consensus")];
    var rootBody := StripLinks(StripHeading(c.markdown, 1));
    if rootBody != "" { chunks := chunks + [rootBody]; }
    ghost var root := chunks;
    assert root == RootChunks(c.title, c.markdown);
    for i := 0 to |c.sections|
      invariant chunks == root + AllSectionChunks(c.sections[..i])
    {
      hide RootChunks;
      TakeNext(c.sections, i);
      assert c.sections[..i + 1][..i] == c.sections[..i];
      var child := c.sections[i];
      var body := StripHeading(child.markdown, 2);
      ghost var before := chunks;
      chunks := chunks + ["## " + Decode(if child.title != "" then child.title else "Section")];
      if body != "" { chunks := chunks + [body]; }
      PushPiece(before, "## " + Decode(Or(child.title, "Section")), body);
      assert chunks == before + SectionChunks(child);
      hide SectionChunks, Optional;
      Assoc(root, AllSectionChunks(c.sections[..i]), SectionChunks(child));
    }
    assert c.sections[..|c.sections|] == c.sections;
    markdown := JoinWith(Kept(chunks), "\n\n") + "\n";
  }

  lemma PushPiece(chunks: seq<string>, heading: string, body: string)
    ensures chunks + [heading] + Optional(body) == chunks + ([heading] + Optional(body))
    ensures body == "" ==> chunks + [heading] == chunks + ([heading] + Optional(body))
  {
  }

  // The parts without their heading lines.
  function Stripped(c: Consensus): Consensus {
    Consensus(c.title, StripHeading(c.markdown, 1),
              seq(|c.sections|, i requires 0 <= i < |c.sections| =>
                Section(c.sections[i].title, StripHeading(c.sections[i].markdown, 2))))
  }

  // What importKnowledgeMarkdown makes of a text before it goes to documents.
  function Parsed(markdown: string): Consensus {
    Stripped(SplitByHeadings(markdown))
  }
}
