// What deterministicCleanupMarkdown leaves of a text's sections, read from the
// cleaned text itself.
module MarkdownCleanupText {
  import opened Text
  import opened Wrappers
  import opened MarkdownDocument
  import opened MarkdownBullets
  import opened MarkdownCleanup

  // The same lines, but for white space at their ends.
  ghost predicate SameLines(a: seq<string>, b: seq<string>) {
    |a| == |b| && forall i | 0 <= i < |a| :: TrimEnd(a[i]) == TrimEnd(b[i])
  }

  ghost predicate SameSections(a: seq<Section>, b: seq<Section>) {
    |a| == |b| && forall i | 0 <= i < |a| :: a[i].heading == b[i].heading && SameLines(a[i].lines, b[i].lines)
  }

  lemma SameLine(a: string, b: string)
    requires TrimEnd(a) == TrimEnd(b)
    ensures Trim(a) == Trim(b) && IsSectionHeading(a) == IsSectionHeading(b)
  {
    TrimOfTrimEnd(a);
    TrimOfTrimEnd(b);
    hide Trim, TrimEnd;
  }

  lemma {:induction false} SameGroups(a: seq<string>, b: seq<string>, ia: seq<string>, ib: seq<string>,
                                      sa: seq<Section>, sb: seq<Section>)
    requires SameLines(a, b) && SameLines(ia, ib) && SameSections(sa, sb)
    ensures var (ra, rb) := (Group(a, ia, sa), Group(b, ib, sb));
            SameLines(ra.0, rb.0) && SameSections(ra.1, rb.1)
    decreases a
  {
    hide IsSectionHeading, Trim, TrimEnd;
    if a != [] {
      SameLine(a[0], b[0]);
      if IsSectionHeading(a[0]) {
        SameGroups(a[1..], b[1..], ia, ib, sa + [Section(Trim(a[0]), [])], sb + [Section(Trim(b[0]), [])]);
      } else if sa == [] {
        SameGroups(a[1..], b[1..], ia + [a[0]], ib + [b[0]], sa, sb);
      } else {
        SameGroups(a[1..], b[1..], ia, ib, AddLine(sa, a[0]), AddLine(sb, b[0]));
      }
    }
  }

  // The sections without their blank lines.
  function NonBlankSections(sections: seq<Section>): (r: seq<Section>)
    ensures |r| == |sections|
  {
    seq(|sections|, i requires 0 <= i < |sections| => Section(sections[i].heading, NonBlank(sections[i].lines)))
  }

  lemma AddNonBlank(sections: seq<Section>, line: string)
    requires sections != []
    ensures NonBlankSections(AddLine(sections, line)) ==
            if Blank(line) then NonBlankSections(sections) else AddLine(NonBlankSections(sections), line)
  {
    hide Blank, NonBlank;
    var last := sections[|sections| - 1];
    NonBlankSnoc(last.lines, line);
    assert NonBlank(last.lines) + [] == NonBlank(last.lines);
  }

  lemma {:induction false} GroupNonBlank(lines: seq<string>, intro: seq<string>, sections: seq<Section>)
    ensures var r := Group(lines, intro, sections);
            Group(NonBlank(lines), NonBlank(intro), NonBlankSections(sections)) ==
                (NonBlank(r.0), NonBlankSections(r.1))
    decreases lines
  {
    hide Blank, IsSectionHeading, Trim;
    if lines != [] {
      var l, rest := lines[0], lines[1..];
      var w := NonBlank(lines);
      NonBlankFirst(lines);
      if IsSectionHeading(l) {
        HeadingHoldsText(l);
        GroupNonBlank(rest, intro, sections + [Section(Trim(l), [])]);
        NonBlankOfEmpty();
        assert NonBlankSections(sections + [Section(Trim(l), [])]) ==
            NonBlankSections(sections) + [Section(Trim(l), [])];
      } else if sections == [] {
        GroupNonBlank(rest, intro + [l], sections);
        NonBlankSnoc(intro, l);
        assert NonBlank(intro) + [] == NonBlank(intro);
      } else {
        GroupNonBlank(rest, intro, AddLine(sections, l));
        AddNonBlank(sections, l);
      }
    }
  }

  lemma NonBlankFirst(lines: seq<string>)
    requires lines != []
    ensures if Blank(lines[0]) then NonBlank(lines) == NonBlank(lines[1..])
            else NonBlank(lines) != [] && NonBlank(lines)[0] == lines[0] && NonBlank(lines)[1..] == NonBlank(lines[1..])
  {
    hide Blank;
  }

  lemma NonBlankOfEmpty()
    ensures NonBlank([]) == []
  {
  }

  lemma HeadingHoldsText(l: string)
    requires IsSectionHeading(l)
    ensures !Blank(l)
  {
  }

  lemma {:induction false} BodyNonBlank(sections: seq<Section>, key: string)
    ensures BodyOf(NonBlankSections(sections), key) == NonBlank(BodyOf(sections, key))
  {
    hide SectionKey, Blank;
    if sections != [] {
      BodyNonBlank(sections[1..], key);
      assert NonBlankSections(sections)[1..] == NonBlankSections(sections[1..]);
      var own := if SectionKey(sections[0].heading) == key then sections[0].lines else [];
      NonBlankConcat(own, BodyOf(sections[1..], key));
    }
  }

  lemma {:induction false} BodySame(a: seq<Section>, b: seq<Section>, key: string)
    requires SameSections(a, b)
    ensures SameLines(BodyOf(a, key), BodyOf(b, key))
  {
    hide SectionKey, TrimEnd;
    if a != [] { BodySame(a[1..], b[1..], key); }
  }

  lemma HeadingsDecide(a: seq<Section>, b: seq<Section>)
    requires |a| == |b| && forall i | 0 <= i < |a| :: a[i].heading == b[i].heading
    ensures Keys(a) == Keys(b) && (DistinctKeys(a) <==> DistinctKeys(b))
  {
    SameKeys(a, b);
    hide SectionKey;
  }

  lemma StripLastSame(lines: seq<string>)
    ensures SameLines(StripLast(lines), lines)
  {
    if lines != [] {
      var l := lines[|lines| - 1];
      TrimEndLast(l);
      TrimEndLast(TrimEnd(l));
    }
  }

  // The cleaned text, read again, has the introduction and the headings of the
  // text, each heading once, and under each of them every line that stood under
  // any heading with its key, in order, less placeholder and repeated bullets:
  // blank lines aside, and white space at the ends of lines.
  lemma CleanedText(content: string, key: string)
    requires key != ""
    ensures var before, after := DocumentLines(content), View(CleanupText(content));
            && SameLines(Introduction(after), NonBlank(Introduction(before)))
            && Keys(Sections(after)) == Keys(Sections(before)) && DistinctKeys(Sections(after))
            && SameLines(BodyOf(Sections(after), key), NonBlank(DropRepeats(BodyOf(Sections(before), key), {})))
  {
    hide Group, CleanupLines, DropRepeats, StripLast, NonBlank, SectionKey, CleanupText, View, DocumentLines, BodyOf,
         DistinctKeys, Keys;
    var before, after := DocumentLines(content), View(CleanupText(content));
    var lines := CleanupLines(before);
    var w := NonBlank(lines);
    CleanupView(content);
    CleanupKeepsSections(before, key);
    StripLastSame(w);
    NonBlankOfEmpty();
    SameGroups(after, w, [], [], [], []);
    GroupNonBlank(lines, [], []);
    assert NonBlankSections([]) == [];
    assert Sections(w) == NonBlankSections(Sections(lines)) && Introduction(w) == NonBlank(Introduction(lines));
    BodySame(Sections(after), Sections(w), key);
    BodyNonBlank(Sections(lines), key);
    HeadingsDecide(Sections(after), Sections(w));
    HeadingsDecide(Sections(w), Sections(lines));
  }
}
