// What deterministicCleanupMarkdown does to a text, and that doing it again
// changes nothing (server/markdown-document.js:155-197).
module MarkdownCleanup {
  import opened Text
  import opened Wrappers
  import opened MarkdownDocument
  import opened MarkdownBullets

  // -------------------------------------------------- lines already cleaned

  // Read from the top: level-2 headings are trimmed and have new keys, and the
  // bullets of each section are live and new. `keys` and `seen` are what was
  // read so far.
  ghost predicate Scan(lines: seq<string>, keys: set<string>, inSection: bool, seen: set<string>) {
    lines == [] ||
    var l, rest := lines[0], lines[1..];
    if IsSectionHeading(l) then
      && l == Trim(l)
      && (SectionKey(l) == "" || SectionKey(l) !in keys)
      && Scan(rest, keys + {SectionKey(l)}, true, {})
    else if inSection && IsBullet(l) then
      && !IsPlaceholder(Trim(l)) && BulletKey(l) !in seen
      && Scan(rest, keys, true, seen + {BulletKey(l)})
    else Scan(rest, keys, inSection, seen)
  }

  lemma BlankLine(l: string)
    requires Blank(l)
    ensures !IsSectionHeading(l) && !IsBullet(l)
  {
    assert |"- "| == 2;
  }

  lemma {:induction false} ScanNonBlank(lines: seq<string>, keys: set<string>, inSection: bool, seen: set<string>)
    ensures Scan(NonBlank(lines), keys, inSection, seen) == Scan(lines, keys, inSection, seen)
  {
    hide IsPlaceholder, ToLower;
    if lines != [] {
      var l, rest := lines[0], lines[1..];
      if Blank(l) {
        BlankLine(l);
        assert NonBlank(lines) == NonBlank(rest);
        ScanNonBlank(rest, keys, inSection, seen);
      } else {
        assert NonBlank(lines) == [l] + NonBlank(rest) && NonBlank(lines)[1..] == NonBlank(rest);
        ScanNonBlank(rest, keys + {SectionKey(l)}, true, {});
        ScanNonBlank(rest, keys, true, seen + {BulletKey(l)});
        ScanNonBlank(rest, keys, inSection, seen);
      }
    }
  }

  lemma TrimEndSameLine(l: string)
    ensures IsSectionHeading(TrimEnd(l)) == IsSectionHeading(l) && SectionKey(TrimEnd(l)) == SectionKey(l)
    ensures IsBullet(TrimEnd(l)) == IsBullet(l) && BulletKey(TrimEnd(l)) == BulletKey(l)
    ensures l == Trim(l) ==> TrimEnd(l) == l
  {
    TrimOfTrimEnd(l);
    TrimIsTrimmed(l);
    if l == Trim(l) { TrimFixed(l); }
  }

  lemma {:induction false} ScanStripLast(lines: seq<string>, keys: set<string>, inSection: bool, seen: set<string>)
    requires Scan(lines, keys, inSection, seen)
    ensures Scan(StripLast(lines), keys, inSection, seen)
  {
    hide IsPlaceholder, ToLower, IsBullet, IsSectionHeading, BulletKey, SectionKey;
    if lines != [] {
      var l, rest := lines[0], lines[1..];
      var s := StripLast(lines);
      if rest == [] {
        TrimEndSameLine(l);
        TrimOfTrimEnd(l);
        assert s[1..] == [];
      } else {
        assert s[0] == l && s[1..] == StripLast(rest);
        if IsSectionHeading(l) {
          ScanStripLast(rest, keys + {SectionKey(l)}, true, {});
        } else if inSection && IsBullet(l) {
          ScanStripLast(rest, keys, true, seen + {BulletKey(l)});
        } else {
          ScanStripLast(rest, keys, inSection, seen);
        }
      }
    }
  }

  // ------------------------------------------------ grouping cleaned lines

  function Flat(sections: seq<Section>): seq<string> {
    if sections == [] then [] else [sections[0].heading] + sections[0].lines + Flat(sections[1..])
  }

  lemma FlatEmpty()
    ensures Flat([]) == []
  {
  }

  lemma {:induction false} FlatConcat(a: seq<Section>, b: seq<Section>)
    ensures Flat(a + b) == Flat(a) + Flat(b)
  {
    if a == [] {
      assert a + b == b;
    } else {
      assert (a + b)[1..] == a[1..] + b;
      FlatConcat(a[1..], b);
    }
  }

  lemma FlatSnoc(a: seq<Section>, s: Section)
    ensures Flat(a + [s]) == Flat(a) + [s.heading] + s.lines
  {
    FlatConcat(a, [s]);
    assert [s][1..] == [];
  }

  function Keys(sections: seq<Section>): set<string> {
    set s | s in sections :: SectionKey(s.heading)
  }

  function BulletKeys(lines: seq<string>): set<string> {
    set l | l in lines && IsBullet(l) :: BulletKey(l)
  }

  ghost predicate DistinctKeys(sections: seq<Section>) {
    forall i, j | 0 <= i < j < |sections| && SectionKey(sections[i].heading) != "" ::
      SectionKey(sections[i].heading) != SectionKey(sections[j].heading)
  }

  ghost predicate NoRepeats(sections: seq<Section>) {
    forall s | s in sections :: DropRepeats(s.lines, {}) == s.lines
  }

  ghost function LastSeen(sections: seq<Section>): set<string> {
    if sections == [] then {} else BulletKeys(sections[|sections| - 1].lines)
  }

  lemma {:induction false} DropRepeatsSnoc(a: seq<string>, l: string, seen: set<string>)
    requires DropRepeats(a, seen) == a
    requires IsBullet(l) ==> !IsPlaceholder(Trim(l)) && BulletKey(l) !in seen + BulletKeys(a)
    ensures DropRepeats(a + [l], seen) == a + [l]
  {
    hide IsPlaceholder, ToLower, IsBullet, BulletKey;
    if a == [] {
      assert (a + [l])[1..] == [];
    } else {
      var rest := a[1..];
      DropRepeatsShorter(rest, seen);
      DropRepeatsShorter(rest, seen + {BulletKey(a[0])});
      assert (a + [l])[1..] == rest + [l];
      if IsBullet(a[0]) {
        assert DropRepeats(a, seen)[1..] == DropRepeats(rest, seen + {BulletKey(a[0])});
        assert a[0] in a && BulletKey(a[0]) in BulletKeys(a);
        assert seen + {BulletKey(a[0])} + BulletKeys(rest) <= seen + BulletKeys(a);
        DropRepeatsSnoc(rest, l, seen + {BulletKey(a[0])});
      } else {
        assert DropRepeats(a, seen)[1..] == DropRepeats(rest, seen);
        assert BulletKeys(rest) <= BulletKeys(a);
        DropRepeatsSnoc(rest, l, seen);
      }
    }
  }

  lemma {:induction false} DropRepeatsShorter(lines: seq<string>, seen: set<string>)
    ensures |DropRepeats(lines, seen)| <= |lines|
  {
    if lines != [] {
      DropRepeatsShorter(lines[1..], seen);
      DropRepeatsShorter(lines[1..], seen + {BulletKey(lines[0])});
    }
  }

  ghost predicate CleanState(lines: seq<string>, sections: seq<Section>) {
    && Scan(lines, Keys(sections), sections != [], LastSeen(sections))
    && DistinctKeys(sections) && NoRepeats(sections)
  }

  lemma CleanHeading(l: string, rest: seq<string>, sections: seq<Section>)
    requires IsSectionHeading(l) && CleanState([l] + rest, sections)
    ensures CleanState(rest, sections + [Section(Trim(l), [])]) && Trim(l) == l
  {
    hide IsPlaceholder, ToLower, IsBullet, IsSectionHeading, SectionKey;
    var next := sections + [Section(l, [])];
    assert ([l] + rest)[1..] == rest;
    assert Keys(next) == Keys(sections) + {SectionKey(l)} by {
      assert forall s :: s in next <==> s in sections || s == Section(l, []);
    }
    assert LastSeen(next) == {};
    forall i, j | 0 <= i < j < |next| && SectionKey(next[i].heading) != ""
      ensures SectionKey(next[i].heading) != SectionKey(next[j].heading)
    {
      assert next[i] == sections[i];
      assert SectionKey(sections[i].heading) in Keys(sections);
    }
  }

  lemma CleanLine(l: string, rest: seq<string>, sections: seq<Section>)
    requires !IsSectionHeading(l) && sections != [] && CleanState([l] + rest, sections)
    ensures CleanState(rest, AddLine(sections, l))
  {
    hide IsPlaceholder, ToLower, IsBullet, IsSectionHeading, SectionKey, BulletKey;
    var n := |sections| - 1;
    var next, last := AddLine(sections, l), sections[n];
    assert ([l] + rest)[1..] == rest;
    assert last in sections;
    SameKeys(sections, next);
    assert DropRepeats(last.lines + [l], {}) == last.lines + [l] by { DropRepeatsSnoc(last.lines, l, {}); }
    assert BulletKeys(last.lines + [l]) == BulletKeys(last.lines) + (if IsBullet(l) then {BulletKey(l)} else {});
    forall s | s in next ensures DropRepeats(s.lines, {}) == s.lines {
      assert s == Section(last.heading, last.lines + [l]) || s in sections;
    }
    assert next[n].lines == last.lines + [l];
    assert LastSeen(next) == LastSeen(sections) + (if IsBullet(l) then {BulletKey(l)} else {});
    if !IsBullet(l) { assert LastSeen(next) == LastSeen(sections); }
  }

  lemma SameKeys(a: seq<Section>, b: seq<Section>)
    requires |a| == |b| && forall i | 0 <= i < |a| :: a[i].heading == b[i].heading
    ensures Keys(a) == Keys(b) && (DistinctKeys(a) ==> DistinctKeys(b))
  {
    hide SectionKey;
    forall s | s in a ensures SectionKey(s.heading) in Keys(b) {
      var i :| 0 <= i < |a| && a[i] == s;
      assert b[i] in b;
    }
    forall s | s in b ensures SectionKey(s.heading) in Keys(a) {
      var i :| 0 <= i < |b| && b[i] == s;
      assert a[i] in a;
    }
  }

  lemma {:induction false} GroupClean(lines: seq<string>, intro: seq<string>, sections: seq<Section>,
                                      whole: seq<string>)
    requires CleanState(lines, sections) && whole == intro + Flat(sections) + lines
    ensures var (i, s) := Group(lines, intro, sections);
            whole == i + Flat(s) && DistinctKeys(s) && NoRepeats(s)
  {
    hide IsPlaceholder, ToLower, IsBullet, IsSectionHeading, SectionKey, BulletKey, DropRepeats, Trim;
    if lines != [] {
      var l, rest := lines[0], lines[1..];
      hide CleanState, DistinctKeys, NoRepeats, Flat;
      assert lines == [l] + rest;
      if IsSectionHeading(l) {
        CleanHeading(l, rest, sections);
        FlatSnoc(sections, Section(l, []));
        PushLine(intro, Flat(sections), l, rest);
        GroupClean(rest, intro, sections + [Section(l, [])], whole);
      } else if sections == [] {
        FlatEmpty();
        PushLine(intro, [], l, rest);
        IntroLine(l, rest);
        GroupClean(rest, intro + [l], sections, whole);
      } else {
        CleanLine(l, rest, sections);
        FlatAddLine(sections, l);
        PushLine(intro, Flat(sections), l, rest);
        GroupClean(rest, intro, AddLine(sections, l), whole);
      }
    }
  }

  lemma PushLine(a: seq<string>, b: seq<string>, l: string, rest: seq<string>)
    ensures a + b + ([l] + rest) == a + (b + [l]) + rest
    ensures a + (b + [l] + []) + rest == a + (b + [l]) + rest && a + (b + [l]) + rest == (a + b + [l]) + rest
    ensures a + [] == a && (a + [l]) + [] == a + [l]
  {
    assert b + [l] + [] == b + [l];
  }

  lemma IntroLine(l: string, rest: seq<string>)
    requires !IsSectionHeading(l) && CleanState([l] + rest, [])
    ensures CleanState(rest, [])
  {
    hide IsPlaceholder, ToLower, IsBullet, IsSectionHeading, SectionKey, BulletKey;
    assert ([l] + rest)[1..] == rest;
  }

  lemma FlatAddLine(sections: seq<Section>, l: string)
    requires sections != []
    ensures Flat(AddLine(sections, l)) == Flat(sections) + [l]
  {
    hide Flat;
    var n := |sections| - 1;
    FlatSnoc(sections[..n], sections[n]);
    assert sections == sections[..n] + [sections[n]];
    FlatSnoc(sections[..n], Section(sections[n].heading, sections[n].lines + [l]));
  }

  lemma {:induction false} MergeDistinct(sections: seq<Section>, ordered: seq<Section>)
    requires DistinctKeys(ordered + sections)
    ensures Merge(sections, ordered) == ordered + sections
  {
    hide SectionKey;
    if sections != [] {
      var s := sections[0];
      FindSectionSpec(ordered, SectionKey(s.heading));
      assert forall j | 0 <= j < |ordered| :: (ordered + sections)[j] == ordered[j];
      assert (ordered + sections)[|ordered|] == s;
      assert ordered + sections == (ordered + [s]) + sections[1..];
      MergeDistinct(sections[1..], ordered + [s]);
    }
  }

  lemma {:induction false} FindSectionSpec(sections: seq<Section>, key: string)
    ensures var i := FindSection(sections, key);
            && (i < |sections| ==> SectionKey(sections[i].heading) == key)
            && forall j | 0 <= j < i :: SectionKey(sections[j].heading) != key
  {
    hide SectionKey;
    if sections != [] && SectionKey(sections[0].heading) != key { FindSectionSpec(sections[1..], key); }
  }

  lemma {:induction false} EmitFlat(sections: seq<Section>)
    requires NoRepeats(sections)
    ensures Emit(sections) == Flat(sections)
  {
    if sections != [] { EmitFlat(sections[1..]); }
  }

  // Cleaned lines are a fixed point.
  lemma CleanupFixed(lines: seq<string>)
    requires Scan(lines, {}, false, {})
    ensures CleanupLines(lines) == lines
  {
    hide Scan, Group, Merge, Emit, Flat, DropRepeats;
    assert Keys([]) == {};
    assert lines == [] + Flat([]) + lines by { FlatEmpty(); }
    GroupClean(lines, [], [], lines);
    var (intro, sections) := Group(lines, [], []);
    assert [] + sections == sections;
    MergeDistinct(sections, []);
    EmitFlat(sections);
  }

  // --------------------------------------------------- cleaning makes clean

  ghost predicate NoHeadings(lines: seq<string>) {
    forall l | l in lines :: !IsSectionHeading(l)
  }

  ghost predicate WellFormed(sections: seq<Section>) {
    forall s | s in sections ::
      IsSectionHeading(s.heading) && s.heading == Trim(s.heading) && NoHeadings(s.lines)
  }

  lemma {:induction false} GroupWellFormed(lines: seq<string>, intro: seq<string>, sections: seq<Section>)
    requires NoHeadings(intro) && WellFormed(sections)
    ensures var (i, s) := Group(lines, intro, sections); NoHeadings(i) && WellFormed(s)
  {
    hide IsSectionHeading, Trim;
    if lines != [] {
      var l := lines[0];
      if IsSectionHeading(l) {
        TrimmedHeading(l);
        GroupWellFormed(lines[1..], intro, sections + [Section(Trim(l), [])]);
      } else if sections == [] {
        GroupWellFormed(lines[1..], intro + [l], sections);
      } else {
        var n := |sections| - 1;
        assert sections[n] in sections;
        assert NoHeadings(sections[n].lines + [l]);
        GroupWellFormed(lines[1..], intro, AddLine(sections, l));
      }
    }
  }

  lemma TrimmedHeading(l: string)
    requires IsSectionHeading(l)
    ensures IsSectionHeading(Trim(l)) && Trim(Trim(l)) == Trim(l)
  {
    TrimIsTrimmed(l);
  }

  lemma MergeOneKeeps(ordered: seq<Section>, s: Section)
    requires WellFormed(ordered + [s]) && DistinctKeys(ordered)
    ensures WellFormed(MergeOne(ordered, s)) && DistinctKeys(MergeOne(ordered, s))
    ensures Keys(MergeOne(ordered, s)) == Keys(ordered) + {SectionKey(s.heading)}
  {
    hide SectionKey, IsSectionHeading, Trim;
    var key := SectionKey(s.heading);
    var at := FindSection(ordered, key);
    FindSectionSpec(ordered, key);
    assert s in ordered + [s] && forall o | o in ordered :: o in ordered + [s];
    if key == "" || at == |ordered| {
      assert forall o :: o in ordered + [s] <==> o in ordered || o == s;
    } else {
      var o := ordered[at];
      assert o in ordered;
      var merged := Section(o.heading, o.lines + s.lines);
      SameKeys(ordered, ordered[at := merged]);
      assert forall x | x in ordered[at := merged] :: x == merged || x in ordered;
    }
  }

  lemma {:induction false} MergeKeeps(sections: seq<Section>, ordered: seq<Section>)
    requires WellFormed(ordered) && WellFormed(sections) && DistinctKeys(ordered)
    ensures WellFormed(Merge(sections, ordered)) && DistinctKeys(Merge(sections, ordered))
    ensures Keys(Merge(sections, ordered)) == Keys(ordered) + Keys(sections)
  {
    hide SectionKey, IsSectionHeading, Trim, MergeOne;
    if sections == [] {
      assert Keys(sections) == {};
    } else {
      var s := sections[0];
      assert s in sections;
      MergeOneKeeps(ordered, s);
      MergeKeeps(sections[1..], MergeOne(ordered, s));
      assert forall x :: x in sections <==> x == s || x in sections[1..];
      assert Keys(sections) == {SectionKey(s.heading)} + Keys(sections[1..]);
    }
  }

  ghost predicate NewKeys(sections: seq<Section>, keys: set<string>) {
    forall s | s in sections && SectionKey(s.heading) != "" :: SectionKey(s.heading) !in keys
  }

  lemma {:induction false} ScanEmit(sections: seq<Section>, keys: set<string>, inSection: bool, seen: set<string>)
    requires WellFormed(sections) && DistinctKeys(sections) && NewKeys(sections, keys)
    ensures Scan(Emit(sections), keys, inSection, seen)
    decreases |sections|, 1, 0
  {
    hide SectionKey, IsSectionHeading, Trim, IsBullet, IsPlaceholder, BulletKey;
    if sections != [] {
      var s, rest := sections[0], sections[1..];
      assert s in sections;
      forall r | r in rest && SectionKey(r.heading) != ""
        ensures SectionKey(r.heading) !in keys + {SectionKey(s.heading)}
      {
        var j :| 0 <= j < |rest| && rest[j] == r;
        assert sections[j + 1] == r;
        if SectionKey(s.heading) != "" {
          assert SectionKey(sections[0].heading) != SectionKey(sections[j + 1].heading);
        }
      }
      ScanDropped(s.lines, rest, keys + {SectionKey(s.heading)}, {});
      var body := DropRepeats(s.lines, {}) + Emit(rest);
      assert Emit(sections) == [s.heading] + body;
      assert Emit(sections)[1..] == body;
    }
  }

  lemma {:induction false} ScanDropped(lines: seq<string>, sections: seq<Section>, keys: set<string>, seen: set<string>)
    requires NoHeadings(lines)
    requires WellFormed(sections) && DistinctKeys(sections) && NewKeys(sections, keys)
    ensures Scan(DropRepeats(lines, seen) + Emit(sections), keys, true, seen)
    decreases |sections| + 1, 0, |lines|
  {
    hide SectionKey, IsSectionHeading, Trim, IsBullet, IsPlaceholder, BulletKey;
    var tail := Emit(sections);
    if lines == [] {
      assert DropRepeats(lines, seen) + tail == tail;
      ScanEmit(sections, keys, true, seen);
    } else {
      var l, rest := lines[0], lines[1..];
      if !IsBullet(l) {
        ScanDropped(rest, sections, keys, seen);
        assert ([l] + DropRepeats(rest, seen) + tail)[1..] == DropRepeats(rest, seen) + tail;
      } else if IsPlaceholder(Trim(l)) || BulletKey(l) in seen {
        ScanDropped(rest, sections, keys, seen);
      } else {
        var seen' := seen + {BulletKey(l)};
        ScanDropped(rest, sections, keys, seen');
        assert ([l] + DropRepeats(rest, seen') + tail)[1..] == DropRepeats(rest, seen') + tail;
      }
    }
  }

  lemma {:induction false} ScanIntro(intro: seq<string>, rest: seq<string>)
    requires NoHeadings(intro) && Scan(rest, {}, false, {})
    ensures Scan(intro + rest, {}, false, {})
  {
    hide SectionKey, IsSectionHeading, Trim, IsBullet, IsPlaceholder, BulletKey;
    if intro == [] {
      assert intro + rest == rest;
    } else {
      assert (intro + rest)[1..] == intro[1..] + rest;
      ScanIntro(intro[1..], rest);
    }
  }

  lemma MergedSections(lines: seq<string>)
    ensures var (intro, sections) := Group(lines, [], []);
            var ordered := Merge(sections, []);
            NoHeadings(intro) && WellFormed(sections) && WellFormed(ordered) && DistinctKeys(ordered) &&
                Keys(ordered) == Keys(sections)
  {
    hide SectionKey, IsSectionHeading, Trim, Group, Merge;
    GroupWellFormed(lines, [], []);
    var (intro, sections) := Group(lines, [], []);
    MergeKeeps(sections, []);
    assert Keys([]) == {};
  }

  // The cleaned lines are clean, whatever the lines were.
  lemma CleanupScans(lines: seq<string>)
    ensures Scan(CleanupLines(lines), {}, false, {})
  {
    hide Scan, Group, Merge, Emit, SectionKey, IsSectionHeading;
    MergedSections(lines);
    var (intro, sections) := Group(lines, [], []);
    var ordered := Merge(sections, []);
    ScanEmit(ordered, {}, false, {});
    ScanIntro(intro, Emit(ordered));
  }

  // ------------------------------------------------------------- idempotence

  ghost predicate PlainSections(sections: seq<Section>) {
    forall s | s in sections :: Plain(s.heading) && PlainLines(s.lines)
  }

  lemma {:induction false} GroupPlain(lines: seq<string>, intro: seq<string>, sections: seq<Section>)
    requires PlainLines(lines) && PlainLines(intro) && PlainSections(sections)
    ensures var (i, s) := Group(lines, intro, sections); PlainLines(i) && PlainSections(s)
  {
    hide IsSectionHeading, Trim;
    if lines != [] {
      var l := lines[0];
      assert Plain(l);
      if IsSectionHeading(l) {
        TrimIsTrimmed(l);
        GroupPlain(lines[1..], intro, sections + [Section(Trim(l), [])]);
      } else if sections == [] {
        GroupPlain(lines[1..], intro + [l], sections);
      } else {
        var n := |sections| - 1;
        assert sections[n] in sections;
        GroupPlain(lines[1..], intro, AddLine(sections, l));
      }
    }
  }

  lemma {:induction false} MergePlain(sections: seq<Section>, ordered: seq<Section>)
    requires PlainSections(sections) && PlainSections(ordered)
    ensures PlainSections(Merge(sections, ordered))
  {
    hide SectionKey, FindSection;
    if sections != [] {
      var s := sections[0];
      assert s in sections;
      var at := FindSection(ordered, SectionKey(s.heading));
      assert at < |ordered| ==> ordered[at] in ordered;
      assert PlainSections(MergeOne(ordered, s));
      MergePlain(sections[1..], MergeOne(ordered, s));
    }
  }

  lemma {:induction false} DropRepeatsSound(lines: seq<string>, seen: set<string>)
    ensures forall l | l in DropRepeats(lines, seen) :: l in lines
  {
    hide IsBullet, IsPlaceholder, BulletKey;
    if lines != [] {
      DropRepeatsSound(lines[1..], seen);
      DropRepeatsSound(lines[1..], seen + {BulletKey(lines[0])});
    }
  }

  lemma {:induction false} EmitPlain(sections: seq<Section>)
    requires PlainSections(sections)
    ensures PlainLines(Emit(sections))
  {
    hide DropRepeats;
    if sections != [] {
      var s := sections[0];
      assert s in sections;
      DropRepeatsSound(s.lines, {});
      EmitPlain(sections[1..]);
      PlainConcat([s.heading], DropRepeats(s.lines, {}));
      PlainConcat([s.heading] + DropRepeats(s.lines, {}), Emit(sections[1..]));
    }
  }

  lemma CleanupPlain(lines: seq<string>)
    requires PlainLines(lines)
    ensures PlainLines(CleanupLines(lines))
  {
    hide Group, Merge, Emit;
    GroupPlain(lines, [], []);
    var (intro, sections) := Group(lines, [], []);
    MergePlain(sections, []);
    EmitPlain(Merge(sections, []));
  }

  // Joining no lines gives the same text as joining one empty line.
  function SomeLines(lines: seq<string>): seq<string> {
    if lines == [] then [""] else lines
  }

  // The cleaned text reads as the cleaned lines, up to blank lines and the
  // trim at the end of the document.
  lemma CleanupView(content: string)
    ensures View(CleanupText(content)) == StripLast(NonBlank(CleanupLines(DocumentLines(content))))
  {
    hide CleanupLines, StripLast, NonBlank;
    var c := CleanupLines(DocumentLines(content));
    DocumentLinesPlain(content);
    CleanupPlain(DocumentLines(content));
    RenderView(SomeLines(c));
    NonBlankEmptyLine();
    assert Join(SomeLines(c)) == Join(c);
  }

  lemma NonBlankEmptyLine()
    ensures NonBlank([""]) == NonBlank([])
  {
    assert Blank("");
  }

  // deterministicCleanupMarkdown is idempotent on every text.
  lemma CleanupIdempotent(content: string)
    ensures CleanupText(CleanupText(content)) == CleanupText(content)
  {
    hide CleanupLines, Scan, StripLast, NonBlank, Split, Join, EnsureTrailingNewline;
    var c := CleanupLines(DocumentLines(content));
    var text := CleanupText(content);
    DocumentLinesPlain(content);
    CleanupPlain(DocumentLines(content));
    RenderLines(c);
    CleanupScans(DocumentLines(content));
    ScanNonBlank(c, {}, false, {});
    ScanStripLast(NonBlank(c), {}, false, {});
    CleanupView(content);
    ScanNonBlank(Split(text), {}, false, {});
    CleanupFixed(Split(text));
    JoinSplit(text);
    EnsureTrailingNewlineIdempotent(Join(c));
  }

  // ------------------------------------------------- what a cleanup preserves

  // The lines under the headings with this key, in order.
  function BodyOf(sections: seq<Section>, key: string): seq<string> {
    if sections == [] then []
    else (if SectionKey(sections[0].heading) == key then sections[0].lines else []) + BodyOf(sections[1..], key)
  }

  lemma {:induction false} BodyConcat(a: seq<Section>, b: seq<Section>, key: string)
    ensures BodyOf(a + b, key) == BodyOf(a, key) + BodyOf(b, key)
  {
    hide SectionKey;
    if a == [] {
      assert a + b == b;
    } else {
      assert (a + b)[1..] == a[1..] + b;
      BodyConcat(a[1..], b, key);
    }
  }

  lemma {:induction false} BodyAbsent(sections: seq<Section>, key: string)
    requires forall i | 0 <= i < |sections| :: SectionKey(sections[i].heading) != key
    ensures BodyOf(sections, key) == []
  {
    hide SectionKey;
    if sections != [] { BodyAbsent(sections[1..], key); }
  }

  lemma BodySingle(s: Section, key: string)
    ensures BodyOf([s], key) == if SectionKey(s.heading) == key then s.lines else []
  {
    hide SectionKey;
    assert [s][1..] == [];
  }

  lemma BodyAt(sections: seq<Section>, at: nat, key: string)
    requires at < |sections| && DistinctKeys(sections) && key != "" && SectionKey(sections[at].heading) == key
    ensures BodyOf(sections, key) == sections[at].lines
  {
    hide SectionKey, BodyOf;
    var a, s, b := sections[..at], sections[at], sections[at + 1..];
    assert sections == a + [s] + b;
    BodyConcat(a + [s], b, key);
    BodyConcat(a, [s], key);
    BodySingle(s, key);
    BodyAbsent(a, key);
    BodyAbsent(b, key);
  }

  lemma MergeOneBody(ordered: seq<Section>, s: Section, key: string)
    requires DistinctKeys(ordered) && key != ""
    ensures BodyOf(MergeOne(ordered, s), key) == BodyOf(ordered, key) + BodyOf([s], key)
  {
    hide SectionKey, BodyOf;
    var k := SectionKey(s.heading);
    var at := FindSection(ordered, k);
    FindSectionSpec(ordered, k);
    BodySingle(s, key);
    if k == "" || at == |ordered| {
      BodyConcat(ordered, [s], key);
    } else {
      var merged := Section(ordered[at].heading, ordered[at].lines + s.lines);
      var next := ordered[at := merged];
      SameKeys(ordered, next);
      if k == key {
        BodyAt(ordered, at, key);
        BodyAt(next, at, key);
      } else {
        BodyOther(ordered, at, merged, key);
      }
    }
  }

  lemma BodyOther(sections: seq<Section>, at: nat, s: Section, key: string)
    requires at < |sections| && SectionKey(sections[at].heading) != key && SectionKey(s.heading) != key
    ensures BodyOf(sections[at := s], key) == BodyOf(sections, key)
  {
    hide SectionKey, BodyOf;
    var a, b := sections[..at], sections[at + 1..];
    assert sections == a + [sections[at]] + b && sections[at := s] == a + [s] + b;
    BodyConcat(a + [s], b, key);
    BodyConcat(a, [s], key);
    BodyConcat(a + [sections[at]], b, key);
    BodyConcat(a, [sections[at]], key);
    BodySingle(s, key);
    BodySingle(sections[at], key);
  }

  lemma {:induction false} MergeBody(sections: seq<Section>, ordered: seq<Section>, key: string)
    requires WellFormed(sections) && WellFormed(ordered) && DistinctKeys(ordered) && key != ""
    ensures BodyOf(Merge(sections, ordered), key) == BodyOf(ordered, key) + BodyOf(sections, key)
  {
    hide SectionKey, MergeOne, IsSectionHeading, BodyOf;
    if sections == [] {
      BodyAbsent(sections, key);
    } else {
      var s := sections[0];
      assert s in sections;
      MergeOneKeeps(ordered, s);
      MergeOneBody(ordered, s, key);
      MergeBody(sections[1..], MergeOne(ordered, s), key);
      assert sections == [s] + sections[1..];
      BodyConcat([s], sections[1..], key);
    }
  }

  function Dropped(sections: seq<Section>): seq<Section> {
    if sections == [] then []
    else [Section(sections[0].heading, DropRepeats(sections[0].lines, {}))] + Dropped(sections[1..])
  }

  lemma {:induction false} GroupLines(lines: seq<string>, rest: seq<string>, intro: seq<string>, sections: seq<Section>)
    requires NoHeadings(lines)
    ensures sections == [] ==> Group(lines + rest, intro, sections) == Group(rest, intro + lines, sections)
    ensures sections != [] ==>
              var n := |sections| - 1;
              Group(lines + rest, intro, sections) ==
              Group(rest, intro, sections[..n] + [Section(sections[n].heading, sections[n].lines + lines)])
  {
    hide IsSectionHeading, Trim;
    var n := |sections| - 1;
    if lines == [] {
      assert lines + rest == rest && intro + lines == intro;
      assert sections != [] ==>
          sections[n].lines + lines == sections[n].lines && sections[..n] + [sections[n]] == sections;
    } else {
      var l := lines[0];
      assert (lines + rest)[0] == l && (lines + rest)[1..] == lines[1..] + rest;
      assert lines == [l] + lines[1..];
      if sections == [] {
        GroupLines(lines[1..], rest, intro + [l], sections);
        assert intro + [l] + lines[1..] == intro + lines;
      } else {
        var next := AddLine(sections, l);
        GroupLines(lines[1..], rest, intro, next);
        assert next[..n] == sections[..n];
        assert sections[n].lines + [l] + lines[1..] == sections[n].lines + lines;
      }
    }
  }

  // Emitted sections are read back as the sections they were emitted from.
  lemma {:induction false} GroupEmit(ordered: seq<Section>, intro: seq<string>, sections: seq<Section>)
    requires WellFormed(ordered)
    ensures Group(Emit(ordered), intro, sections) == (intro, sections + Dropped(ordered))
  {
    hide IsSectionHeading, Trim, DropRepeats;
    if ordered == [] {
      assert sections + Dropped(ordered) == sections;
    } else {
      var s := ordered[0];
      assert s in ordered;
      var body, rest := DropRepeats(s.lines, {}), Emit(ordered[1..]);
      DropRepeatsSound(s.lines, {});
      assert NoHeadings(body);
      assert Emit(ordered) == [s.heading] + (body + rest);
      assert Emit(ordered)[1..] == body + rest;
      var begun := sections + [Section(s.heading, [])];
      GroupLines(body, rest, intro, begun);
      assert begun[..|sections|] == sections && [] + body == body;
      GroupEmit(ordered[1..], intro, sections + [Section(s.heading, body)]);
      assert sections + [Section(s.heading, body)] + Dropped(ordered[1..]) == sections + Dropped(ordered);
    }
  }

  lemma {:induction false} DroppedSections(sections: seq<Section>)
    ensures |Dropped(sections)| == |sections|
    ensures forall i | 0 <= i < |sections| ::
              Dropped(sections)[i] == Section(sections[i].heading, DropRepeats(sections[i].lines, {}))
  {
    hide DropRepeats;
    if sections != [] { DroppedSections(sections[1..]); }
  }

  function Sections(lines: seq<string>): seq<Section> {
    Group(lines, [], []).1
  }

  function Introduction(lines: seq<string>): seq<string> {
    Group(lines, [], []).0
  }

  lemma CleanupGroups(lines: seq<string>)
    ensures Introduction(CleanupLines(lines)) == Introduction(lines)
    ensures Sections(CleanupLines(lines)) == Dropped(Merge(Sections(lines), []))
  {
    hide SectionKey, IsSectionHeading, Group, Merge, Emit;
    MergedSections(lines);
    var (intro, sections) := Group(lines, [], []);
    var ordered := Merge(sections, []);
    GroupLines(intro, Emit(ordered), [], []);
    assert [] + intro == intro;
    GroupEmit(ordered, intro, []);
    assert [] + Dropped(ordered) == Dropped(ordered);
  }

  // Cleaning keeps the introduction and the set of headings, leaves each
  // heading once, and leaves under it every line that stood under any heading
  // with its key, in order, less placeholder bullets and repeated bullets.
  lemma CleanupKeepsSections(lines: seq<string>, key: string)
    requires key != ""
    ensures Introduction(CleanupLines(lines)) == Introduction(lines)
    ensures Keys(Sections(CleanupLines(lines))) == Keys(Sections(lines))
    ensures DistinctKeys(Sections(CleanupLines(lines)))
    ensures BodyOf(Sections(CleanupLines(lines)), key) == DropRepeats(BodyOf(Sections(lines), key), {})
  {
    hide SectionKey, IsSectionHeading, Group, Merge, Emit, BodyOf, CleanupLines;
    MergedSections(lines);
    CleanupGroups(lines);
    var sections := Sections(lines);
    var ordered := Merge(sections, []);
    var d := Dropped(ordered);
    DroppedSections(ordered);
    SameKeys(ordered, d);
    MergeBody(sections, [], key);
    BodyAbsent([], key);
    assert [] + BodyOf(sections, key) == BodyOf(sections, key);
    if at :| 0 <= at < |ordered| && SectionKey(ordered[at].heading) == key {
      BodyAt(ordered, at, key);
      BodyAt(d, at, key);
    } else {
      BodyAbsent(ordered, key);
      BodyAbsent(d, key);
    }
  }

  function NonBullets(lines: seq<string>): seq<string> {
    if lines == [] then [] else (if IsBullet(lines[0]) then [] else [lines[0]]) + NonBullets(lines[1..])
  }

  ghost predicate OncePerKey(lines: seq<string>) {
    forall i, j | 0 <= i < j < |lines| && IsBullet(lines[i]) && IsBullet(lines[j]) ::
      BulletKey(lines[i]) != BulletKey(lines[j])
  }

  // What dropping repeats does to the lines under one heading: other lines all
  // stay, and each live bullet stays exactly once.
  lemma {:induction false} DropRepeatsSpec(lines: seq<string>, seen: set<string>)
    ensures var kept := DropRepeats(lines, seen);
            && NonBullets(kept) == NonBullets(lines)
            && OncePerKey(kept)
            && (forall l | l in kept && IsBullet(l) :: l in lines && !IsPlaceholder(Trim(l)) && BulletKey(l) !in seen)
            && (forall l | l in lines && IsBullet(l) && !IsPlaceholder(Trim(l)) && BulletKey(l) !in seen ::
                  BulletKey(l) in BulletKeys(kept))
  {
    hide IsBullet, IsPlaceholder, BulletKey, Trim, OncePerKey;
    if lines == [] {
      OncePerKeyEmpty();
    } else {
      var l, rest := lines[0], lines[1..];
      assert lines == [l] + rest;
      if !IsBullet(l) {
        DropRepeatsSpec(rest, seen);
        KeepLine(l, DropRepeats(rest, seen));
      } else if IsPlaceholder(Trim(l)) || BulletKey(l) in seen {
        DropRepeatsSpec(rest, seen);
      } else {
        DropRepeatsSpec(rest, seen + {BulletKey(l)});
        KeepLine(l, DropRepeats(rest, seen + {BulletKey(l)}));
      }
    }
  }

  lemma OncePerKeyEmpty()
    ensures OncePerKey([])
  {
  }

  lemma KeepLine(l: string, kept: seq<string>)
    requires OncePerKey(kept)
    requires IsBullet(l) ==> forall k | k in kept && IsBullet(k) :: BulletKey(k) != BulletKey(l)
    ensures OncePerKey([l] + kept)
    ensures NonBullets([l] + kept) == (if IsBullet(l) then [] else [l]) + NonBullets(kept)
    ensures BulletKeys([l] + kept) == (if IsBullet(l) then {BulletKey(l)} else {}) + BulletKeys(kept)
  {
    hide IsBullet, BulletKey;
    assert ([l] + kept)[1..] == kept;
    assert forall k | 0 <= k < |kept| :: kept[k] in kept;
  }
}
