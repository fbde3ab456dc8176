// server/markdown-document.js: the Markdown transforms that the operation log
// applies and replays.
module MarkdownDocument {
  import opened Text
  import opened Wrappers

  // ------------------------------------------------------------- headings

  function PreferredSectionHeading(heading: string): string {
    match heading
    case "Recent Work" => "近期工作"
    case "Capabilities" => "能力"
    case "Key Knowledge" => "知识索引"
    case "Strengths And Skills" => "优势与技能"
    case "Style Adaptations" => "语气适配"
    case "User Preferences" => "用户偏好"
    case "Memory Writebacks" => "记忆写入记录"
    case "Channel Memory" => "频道记忆"
    case "Observed Collaboration" => "协作观察"
    case _ => heading
  }

  function SectionAliases(heading: string): seq<string> {
    match heading
    case "Recent Work" => ["近期工作"]
    case "Capabilities" => ["能力", "Skills", "技能"]
    case "Key Knowledge" => ["知识索引", "Knowledge Index"]
    case "Strengths And Skills" => ["优势与技能", "Skills", "技能"]
    case "Style Adaptations" => ["语气适配"]
    case "User Preferences" => ["用户偏好"]
    case "Memory Writebacks" => ["记忆写入记录"]
    case "Channel Memory" => ["频道记忆"]
    case "Observed Collaboration" => ["协作观察"]
    case _ => []
  }

  function CleanAliases(names: seq<string>): seq<string> {
    if names == [] then []
    else
      var name := ToLower(Trim(names[0]));
      (if name == "" then [] else [name]) + CleanAliases(names[1..])
  }

  function SectionHeadingAliases(heading: string): seq<string> {
    CleanAliases([heading] + SectionAliases(heading))
  }

  // /^##\s+/ on the trimmed line
  predicate IsSectionHeading(line: string) {
    var t := Trim(line);
    |t| > 2 && t[..2] == "##" && IsSpace(t[2])
  }

  // The capture of /^##\s+(.+?)\s*$/ on the trimmed line, trimmed.
  function HeadingText(line: string): Option<string> {
    if IsSectionHeading(line) then
      var text := TrimStart(Trim(line)[2..]);
      if NoTerminator(text) then Some(text) else None
    else None
  }

  function HashCount(line: string): (n: nat)
    ensures n <= |line|
  {
    if line != "" && line[0] == '#' then 1 + HashCount(line[1..]) else 0
  }

  // /^#{1,6}\s+/ on the line as it stands
  predicate IsAtxHeading(line: string) {
    var n := HashCount(line);
    1 <= n <= 6 && n < |line| && IsSpace(line[n])
  }

  predicate HeadingMatches(line: string, aliases: seq<string>) {
    HeadingText(line).Some? && ToLower(HeadingText(line).value) in aliases
  }

  // The first line that names the section, or |lines|.
  function FindHeading(lines: seq<string>, aliases: seq<string>): (i: nat)
    ensures i <= |lines|
  {
    if lines == [] || HeadingMatches(lines[0], aliases) then 0
    else 1 + FindHeading(lines[1..], aliases)
  }

  lemma {:induction false} FindHeadingSpec(lines: seq<string>, aliases: seq<string>)
    ensures var i := FindHeading(lines, aliases);
            && (i < |lines| ==> HeadingMatches(lines[i], aliases))
            && forall j | 0 <= j < i :: !HeadingMatches(lines[j], aliases)
  {
    if lines != [] && !HeadingMatches(lines[0], aliases) { FindHeadingSpec(lines[1..], aliases); }
  }

  // The first ATX heading at or after `from`, or |lines|.
  function FindSectionEnd(lines: seq<string>, from: nat): (i: nat)
    requires from <= |lines|
    ensures from <= i <= |lines|
    decreases |lines| - from
  {
    if from == |lines| || IsAtxHeading(lines[from]) then from
    else FindSectionEnd(lines, from + 1)
  }

  lemma {:induction false} FindSectionEndSpec(lines: seq<string>, from: nat)
    requires from <= |lines|
    ensures var i := FindSectionEnd(lines, from);
            && (i < |lines| ==> IsAtxHeading(lines[i]))
            && forall j | from <= j < i :: !IsAtxHeading(lines[j])
    decreases |lines| - from
  {
    if from < |lines| && !IsAtxHeading(lines[from]) { FindSectionEndSpec(lines, from + 1); }
  }

  method SectionBounds(lines: seq<string>, aliases: seq<string>) returns (headingIndex: int, endIndex: int)
    ensures var at := FindHeading(lines, aliases);
            if at == |lines| then headingIndex == endIndex == -1
            else headingIndex == at && endIndex == FindSectionEnd(lines, at + 1)
  {
    hide HeadingMatches, IsAtxHeading, FindHeading, FindSectionEnd;
    FindHeadingSpec(lines, aliases);
    headingIndex := -1;
    for i := 0 to |lines|
      invariant headingIndex == -1
      invariant forall j | 0 <= j < i :: !HeadingMatches(lines[j], aliases)
    {
      var found := HeadingMatches(lines[i], aliases);
      if found {
        headingIndex := i;
        break;
      }
    }
    if headingIndex == -1 { return -1, -1; }
    FindSectionEndSpec(lines, headingIndex + 1);
    endIndex := |lines|;
    for index := headingIndex + 1 to |lines|
      invariant endIndex == |lines|
      invariant forall j | headingIndex < j < index :: !IsAtxHeading(lines[j])
    {
      if IsAtxHeading(lines[index]) {
        endIndex := index;
        break;
      }
    }
  }

  // -------------------------------------------------------------- bullets

  function Contains(s: string, sub: string): bool {
    sub <= s || (s != "" && Contains(s[1..], sub))
  }

  function ContainsAny(s: string, subs: seq<string>): bool {
    subs != [] && (Contains(s, subs[0]) || ContainsAny(s, subs[1..]))
  }

  const PLACEHOLDERS_ANY_CASE: seq<string> := [
    "no recent durable work has been recorded yet",
    "no open work has been recorded yet",
    "no completed work has been recorded yet",
    "no durable decisions have been recorded yet",
    "no active task has been recorded yet",
    "before a long task or context-heavy handoff"
  ]

  const PLACEHOLDERS: seq<string> := [
    "暂无近期可复用记录",
    "暂无经过真实任务验证的稳定能力",
    "暂无需要跨回合延续的任务",
    "暂无进行中的长期工作",
    "暂无已完成的长期工作",
    "暂无需要长期保留的决策",
    "根据真实完成的任务补充"
  ]

  predicate IsPlaceholder(line: string) {
    ContainsAny(ToLower(line), PLACEHOLDERS_ANY_CASE) || ContainsAny(line, PLACEHOLDERS)
  }

  predicate IsBullet(line: string) {
    StartsWith(Trim(line), "- ")
  }

  function LiveBullets(lines: seq<string>): seq<string> {
    if lines == [] then []
    else (if IsBullet(lines[0]) && !IsPlaceholder(lines[0]) then [lines[0]] else []) + LiveBullets(lines[1..])
  }

  function Without(lines: seq<string>, bullet: string): seq<string> {
    if lines == [] then []
    else (if Trim(lines[0]) == Trim(bullet) then [] else [lines[0]]) + Without(lines[1..], bullet)
  }

  function Take<T>(s: seq<T>, n: nat): (r: seq<T>) {
    if |s| <= n then s else s[..n]
  }

  function SectionBullets(section: seq<string>, bullet: string, maxItems: nat): seq<string> {
    Take(LiveBullets([bullet] + Without(NonBlank(section), bullet)), maxItems)
  }

  function HeadingLine(heading: string): string {
    "## " + PreferredSectionHeading(heading)
  }

  // A section appended at the end of the document, after a blank line unless
  // the document already ends in one.
  function AppendSection(lines: seq<string>, headingLine: string, body: seq<string>): seq<string> {
    lines + (if lines != [] && !Blank(lines[|lines| - 1]) then [""] else []) + [headingLine] + body
  }

  function UpsertBulletLines(lines: seq<string>, aliases: seq<string>, headingLine: string,
                             bullet: string, maxItems: nat): seq<string>
  {
    var at := FindHeading(lines, aliases);
    if at == |lines| then AppendSection(lines, headingLine, [bullet])
    else
      var end := FindSectionEnd(lines, at + 1);
      lines[..at] + [headingLine] + SectionBullets(lines[at + 1..end], bullet, maxItems) + [""] + lines[end..]
  }

  function DocumentLines(content: string): seq<string> {
    Split(NormalizeNewline(content))
  }

  function Render(lines: seq<string>): string {
    EnsureTrailingNewline(Join(lines))
  }

  function UpsertMarkdownBullet(content: string, heading: string, bullet: string, maxItems: nat): string {
    Render(UpsertBulletLines(DocumentLines(content), SectionHeadingAliases(heading), HeadingLine(heading),
                             bullet, maxItems))
  }

  // -------------------------------------------- sections and front matter

  function ReplaceMarkdownSection(content: string, heading: string, markdown: string): string {
    var lines := DocumentLines(content);
    var given := DocumentLines(markdown);
    var body := if IsSectionHeading(given[0]) then given[1..] else given;
    var at := FindHeading(lines, SectionHeadingAliases(heading));
    if at == |lines| then Render(AppendSection(lines, HeadingLine(heading), body))
    else Render(lines[..at] + [HeadingLine(heading)] + body + lines[FindSectionEnd(lines, at + 1)..])
  }

  predicate KeyChar(c: char) {
    'A' <= c <= 'Z' || 'a' <= c <= 'z' || '0' <= c <= '9' || c == '_' || c == '-'
  }

  function CleanKey(key: string): string {
    var k := Trim(key);
    seq(|k|, i requires 0 <= i < |k| => if KeyChar(k[i]) then k[i] else '_')
  }

  function FindFence(lines: seq<string>, from: nat): (i: nat)
    requires from <= |lines|
    ensures from <= i <= |lines|
    decreases |lines| - from
  {
    if from == |lines| || Trim(lines[from]) == "---" then from else FindFence(lines, from + 1)
  }

  function FindKey(lines: seq<string>, key: string): (i: nat)
    ensures i <= |lines|
  {
    if lines == [] || StartsWith(Trim(lines[0]), key + ":") then 0 else 1 + FindKey(lines[1..], key)
  }

  // `scalar` is the value as markdownScalar renders it.
  function UpsertMarkdownFrontmatter(content: string, key: string, scalar: string): string {
    var clean := CleanKey(key);
    if clean == "" then EnsureTrailingNewline(content)
    else
      var lines := DocumentLines(content);
      var next := clean + ": " + scalar;
      if lines[0] != "---" then Render(["---", next, "---", ""] + lines)
      else
        var end := FindFence(lines, 1);
        if end == |lines| then Render(["---", next, "---", ""] + lines[1..])
        else
          var at := FindKey(lines[1..end], clean);
          if at < |lines[1..end]| then Render(lines[1 + at := next])
          else Render(lines[..end] + [next] + lines[end..])
  }

  // -------------------------------------------------------------- cleanup

  datatype Section = Section(heading: string, lines: seq<string>)

  function SectionKey(line: string): string {
    match HeadingText(line)
    case None => ""
    case Some(text) => ToLower(text)
  }

  // Splits the lines into the introduction and the level-2 sections, given
  // what was collected before them.
  function Group(lines: seq<string>, intro: seq<string>, sections: seq<Section>): (seq<string>, seq<Section>) {
    if lines == [] then (intro, sections)
    else if IsSectionHeading(lines[0]) then Group(lines[1..], intro, sections + [Section(Trim(lines[0]), [])])
    else if sections == [] then Group(lines[1..], intro + [lines[0]], sections)
    else Group(lines[1..], intro, AddLine(sections, lines[0]))
  }

  function AddLine(sections: seq<Section>, line: string): seq<Section>
    requires sections != []
  {
    var n := |sections| - 1;
    sections[..n] + [Section(sections[n].heading, sections[n].lines + [line])]
  }

  // The first section with this key, or |sections|.
  function FindSection(sections: seq<Section>, key: string): (i: nat)
    ensures i <= |sections|
  {
    if sections == [] || SectionKey(sections[0].heading) == key then 0
    else 1 + FindSection(sections[1..], key)
  }

  // Appends a section, or its lines to the section that has its key already.
  function MergeOne(ordered: seq<Section>, section: Section): seq<Section> {
    var key := SectionKey(section.heading);
    var at := FindSection(ordered, key);
    if key == "" || at == |ordered| then ordered + [section]
    else ordered[at := Section(ordered[at].heading, ordered[at].lines + section.lines)]
  }

  function Merge(sections: seq<Section>, ordered: seq<Section>): seq<Section> {
    if sections == [] then ordered else Merge(sections[1..], MergeOne(ordered, sections[0]))
  }

  function BulletKey(line: string): string {
    ToLower(Trim(line))
  }

  // Drops placeholder bullets and bullets whose key was seen.
  function DropRepeats(lines: seq<string>, seen: set<string>): seq<string> {
    if lines == [] then []
    else if !IsBullet(lines[0]) then [lines[0]] + DropRepeats(lines[1..], seen)
    else if IsPlaceholder(Trim(lines[0])) || BulletKey(lines[0]) in seen then DropRepeats(lines[1..], seen)
    else [lines[0]] + DropRepeats(lines[1..], seen + {BulletKey(lines[0])})
  }

  function Emit(sections: seq<Section>): seq<string> {
    if sections == [] then []
    else [sections[0].heading] + DropRepeats(sections[0].lines, {}) + Emit(sections[1..])
  }

  function CleanupLines(lines: seq<string>): seq<string> {
    var (intro, sections) := Group(lines, [], []);
    intro + Emit(Merge(sections, []))
  }

  function CleanupText(content: string): string {
    Render(CleanupLines(DocumentLines(content)))
  }

  method GroupSections(lines: seq<string>) returns (intro: seq<string>, sections: seq<Section>)
    ensures (intro, sections) == Group(lines, [], [])
  {
    intro, sections := [], [];
    for i := 0 to |lines|
      invariant Group(lines[i..], intro, sections) == Group(lines, [], [])
    {
      assert lines[i..][1..] == lines[i + 1..];
      if IsSectionHeading(lines[i]) {
        sections := sections + [Section(Trim(lines[i]), [])];
      } else if sections != [] {
        sections := AddLine(sections, lines[i]);
      } else {
        intro := intro + [lines[i]];
      }
    }
  }

  method MergeSections(sections: seq<Section>) returns (ordered: seq<Section>)
    ensures ordered == Merge(sections, [])
  {
    ordered := [];
    var byHeading: map<string, nat> := map[];
    for i := 0 to |sections|
      invariant Merge(sections[i..], ordered) == Merge(sections, [])
      invariant forall k | k != "" :: k in byHeading <==> FindSection(ordered, k) < |ordered|
      invariant forall k | k != "" && k in byHeading :: byHeading[k] == FindSection(ordered, k)
    {
      assert sections[i..][1..] == sections[i + 1..];
      var section := sections[i];
      var key := SectionKey(section.heading);
      ghost var before := ordered;
      if key == "" || key !in byHeading {
        byHeading := if key == "" then byHeading else byHeading[key := |ordered|];
        ordered := ordered + [section];
        FindSectionSnoc(before, section);
      } else {
        var at := byHeading[key];
        ordered := ordered[at := Section(ordered[at].heading, ordered[at].lines + section.lines)];
        FindSectionSameHeadings(before, ordered);
      }
      assert ordered == MergeOne(before, section);
    }
  }

  method EmitSection(section: seq<string>, before: seq<string>) returns (out: seq<string>)
    ensures out == before + DropRepeats(section, {})
  {
    hide IsPlaceholder, Trim, ToLower;
    out := before;
    var seen: set<string> := {};
    for j := 0 to |section|
      invariant out + DropRepeats(section[j..], seen) == before + DropRepeats(section, {})
    {
      assert section[j..][1..] == section[j + 1..];
      var line := section[j];
      var trimmed := Trim(line);
      if StartsWith(trimmed, "- ") {
        if IsPlaceholder(trimmed) { continue; }
        var key := ToLower(trimmed);
        if key in seen { continue; }
        seen := seen + {key};
      }
      assert out + ([line] + DropRepeats(section[j + 1..], seen)) ==
          (out + [line]) + DropRepeats(section[j + 1..], seen);
      out := out + [line];
    }
  }

  method EmitSections(intro: seq<string>, ordered: seq<Section>) returns (out: seq<string>)
    ensures out == intro + Emit(ordered)
  {
    out := intro;
    for i := 0 to |ordered|
      invariant out + Emit(ordered[i..]) == intro + Emit(ordered)
    {
      EmitNext(out, ordered, i);
      out := EmitSection(ordered[i].lines, out + [ordered[i].heading]);
    }
  }

  lemma EmitNext(out: seq<string>, ordered: seq<Section>, i: nat)
    requires i < |ordered|
    ensures out + Emit(ordered[i..]) ==
            (out + [ordered[i].heading] + DropRepeats(ordered[i].lines, {})) + Emit(ordered[i + 1..])
  {
    hide DropRepeats;
    assert ordered[i..][1..] == ordered[i + 1..];
  }

  method DeterministicCleanupMarkdown(content: string) returns (cleaned: string)
    ensures cleaned == CleanupText(content)
  {
    var intro, sections := GroupSections(DocumentLines(content));
    var ordered := MergeSections(sections);
    var out := EmitSections(intro, ordered);
    cleaned := Render(out);
  }

  lemma {:induction false} FindSectionSnoc(sections: seq<Section>, section: Section)
    ensures forall k ::
              FindSection(sections + [section], k) ==
              if FindSection(sections, k) < |sections| then FindSection(sections, k)
              else if SectionKey(section.heading) == k then |sections| else |sections| + 1
  {
    if sections != [] {
      assert (sections + [section])[1..] == sections[1..] + [section];
      FindSectionSnoc(sections[1..], section);
    }
  }

  lemma {:induction false} FindSectionSameHeadings(a: seq<Section>, b: seq<Section>)
    requires |a| == |b| && forall i | 0 <= i < |a| :: a[i].heading == b[i].heading
    ensures forall k :: FindSection(a, k) == FindSection(b, k)
  {
    if a != [] { FindSectionSameHeadings(a[1..], b[1..]); }
  }

  // ------------------------------------------------------------ operations

  datatype Operation =
    | InitialSnapshot(markdown: string)
    | UpsertBullet(heading: string, text: string, maxItems: nat)
    | ReplaceSection(heading: string, markdown: string)
    | UpsertFrontmatter(key: string, scalar: string)
    | MaintenanceRewrite(markdown: string)
    | DeterministicCleanup
    | Unsupported(name: string)

  // None is the thrown "Unsupported Markdown operation type".
  function ApplyMarkdownOperation(content: string, operation: Operation): Option<string> {
    match operation
    case InitialSnapshot(markdown) => Some(EnsureTrailingNewline(markdown))
    case UpsertBullet(heading, text, maxItems) =>
      Some(UpsertMarkdownBullet(content, heading, text, if maxItems == 0 then 10 else maxItems))
    case ReplaceSection(heading, markdown) => Some(ReplaceMarkdownSection(content, heading, markdown))
    case UpsertFrontmatter(key, scalar) => Some(UpsertMarkdownFrontmatter(content, key, scalar))
    case MaintenanceRewrite(markdown) => Some(EnsureTrailingNewline(markdown))
    case DeterministicCleanup => Some(CleanupText(content))
    case Unsupported(_) => None
  }
}
