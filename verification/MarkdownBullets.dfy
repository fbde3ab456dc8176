// upsertMarkdownBullet keeps a section of a Markdown text as a
// most-recently-used list (server/markdown-document.js:80-98).
module MarkdownBullets {
  import opened Text
  import opened Wrappers
  import opened MarkdownDocument

  // What a text says, blank lines aside.
  function View(content: string): seq<string> {
    NonBlank(DocumentLines(content))
  }

  lemma DocumentLinesPlain(content: string)
    ensures PlainLines(DocumentLines(content))
  {
    SplitIsPlain(NormalizeNewline(content));
  }

  // The lines a rendered text is read back as, before blank lines are dropped.
  lemma RenderLines(lines: seq<string>)
    requires PlainLines(lines)
    ensures DocumentLines(Render(lines)) == Split(Render(lines))
  {
    JoinHasNoReturn(lines);
    NormalizeNewlineFixed(Render(lines));
  }

  lemma RenderView(lines: seq<string>)
    requires lines != [] && PlainLines(lines)
    ensures View(Render(lines)) == StripLast(NonBlank(lines))
  {
    RenderLines(lines);
    SplitJoin(lines);
    NormalizerKeepsNonBlank(Join(lines));
  }

  // ------------------------------------------------- headings seen by a view

  ghost predicate NoHeading(lines: seq<string>, aliases: seq<string>) {
    forall l | l in lines :: !HeadingMatches(l, aliases)
  }

  // The section that an operation on these aliases works on: its heading is at
  // `at` and the next heading, or the end, at `end`.
  ghost predicate SectionAt(lines: seq<string>, aliases: seq<string>, at: nat, end: nat) {
    && at < end <= |lines|
    && HeadingMatches(lines[at], aliases)
    && (forall j | 0 <= j < at :: !HeadingMatches(lines[j], aliases))
    && (forall j | at < j < end :: !IsAtxHeading(lines[j]))
    && (end < |lines| ==> IsAtxHeading(lines[end]))
  }

  lemma SectionFound(lines: seq<string>, aliases: seq<string>, at: nat, end: nat)
    requires SectionAt(lines, aliases, at, end)
    ensures FindHeading(lines, aliases) == at && FindSectionEnd(lines, at + 1) == end
  {
    FindHeadingSpec(lines, aliases);
    FindSectionEndSpec(lines, at + 1);
  }

  lemma SectionSplit(lines: seq<string>, aliases: seq<string>)
    requires FindHeading(lines, aliases) < |lines|
    ensures var at := FindHeading(lines, aliases);
            SectionAt(lines, aliases, at, FindSectionEnd(lines, at + 1))
  {
    FindHeadingSpec(lines, aliases);
    FindSectionEndSpec(lines, FindHeading(lines, aliases) + 1);
  }

  lemma {:induction false} AtxNotBlank(l: string)
    ensures Blank(l) ==> !IsAtxHeading(l)
  {
    if l != "" && l[0] == '#' {
      assert !IsSpace(l[0]);
      NotBlankStart(l);
    }
  }

  lemma NotBlankStart(l: string)
    requires l != "" && !IsSpace(l[0])
    ensures !Blank(l)
  {
    if TrimEnd(l) == "" { TrimEndEmpty(l); }
  }

  lemma {:induction false} TrimEndEmpty(l: string)
    requires TrimEnd(l) == ""
    ensures forall i | 0 <= i < |l| :: IsSpace(l[i])
  {
    if l != "" { TrimEndEmpty(l[..|l| - 1]); }
  }

  lemma NonBlankCut(lines: seq<string>, k: nat)
    requires k <= |lines|
    ensures var w, n := NonBlank(lines), |NonBlank(lines[..k])|;
            n <= |w| && w[..n] == NonBlank(lines[..k]) && w[n..] == NonBlank(lines[k..])
  {
    NonBlankConcat(lines[..k], lines[k..]);
    assert lines[..k] + lines[k..] == lines;
  }

  lemma NonBlankHead(lines: seq<string>)
    requires lines != [] && !Blank(lines[0])
    ensures NonBlank(lines) != [] && NonBlank(lines)[0] == lines[0] && NonBlank(lines)[1..] == NonBlank(lines[1..])
  {
  }

  // Where the section of `lines` at `at` and `end` is once blank lines are gone.
  function ViewAt(lines: seq<string>, at: nat): nat
    requires at <= |lines|
  {
    |NonBlank(lines[..at])|
  }

  function ViewEnd(lines: seq<string>, at: nat, end: nat): nat
    requires at < end <= |lines|
  {
    ViewAt(lines, at) + 1 + |NonBlank(lines[at + 1..end])|
  }

  lemma PiecesView(before: seq<string>, headingLine: string, body: seq<string>, after: seq<string>)
    requires !Blank(headingLine)
    ensures NonBlank(before + [headingLine] + body + after) ==
            NonBlank(before) + [headingLine] + NonBlank(body) + NonBlank(after)
  {
    hide NonBlank, Blank;
    NonBlankConcat(before + [headingLine] + body, after);
    NonBlankConcat(before + [headingLine], body);
    NonBlankSnoc(before, headingLine);
  }

  lemma ViewParts(lines: seq<string>, at: nat, end: nat)
    requires at < end <= |lines| && !Blank(lines[at])
    ensures var w, i, j := NonBlank(lines), ViewAt(lines, at), ViewEnd(lines, at, end);
            && i < j <= |w| && w[..i] == NonBlank(lines[..at]) && w[i] == lines[at]
            && w[i + 1..j] == NonBlank(lines[at + 1..end]) && w[j..] == NonBlank(lines[end..])
  {
    hide NonBlank, Blank;
    var before, h, body, after := lines[..at], lines[at], lines[at + 1..end], lines[end..];
    FourParts(lines, at, end);
    PiecesView(before, h, body, after);
    PartsOfConcat(NonBlank(before), h, NonBlank(body), NonBlank(after));
  }

  lemma HeadingNotBlank(line: string, aliases: seq<string>)
    requires HeadingMatches(line, aliases)
    ensures !Blank(line)
  {
  }

  // Dropping blank lines keeps the section.
  lemma ViewSection(lines: seq<string>, aliases: seq<string>, at: nat, end: nat)
    requires SectionAt(lines, aliases, at, end)
    ensures SectionAt(NonBlank(lines), aliases, ViewAt(lines, at), ViewEnd(lines, at, end))
  {
    hide NonBlank, IsAtxHeading, Blank;
    assert !Blank(lines[at]) by { HeadingNotBlank(lines[at], aliases); }
    hide HeadingMatches;
    var w, i, j := NonBlank(lines), ViewAt(lines, at), ViewEnd(lines, at, end);
    ViewParts(lines, at, end);
    NonBlankSound(lines[..at]);
    NonBlankSound(lines[at + 1..end]);
    forall k | 0 <= k < i ensures !HeadingMatches(w[k], aliases) {
      assert w[k] == w[..i][k] && w[k] in lines[..at];
    }
    forall k | i < k < j ensures !IsAtxHeading(w[k]) {
      assert w[k] == w[i + 1..j][k - i - 1] && w[k] in lines[at + 1..end];
    }
    if end < |lines| {
      AtxNotBlank(lines[end]);
      NonBlankHead(lines[end..]);
      assert w[j..][0] == lines[end];
    } else {
      NonBlankOfNone();
      assert lines[end..] == [];
    }
  }

  // ---------------------------------------------------------- one upsert

  // upsertMarkdownBullet on non-blank lines.
  function UpsertView(lines: seq<string>, aliases: seq<string>, headingLine: string,
                      bullet: string, maxItems: nat): seq<string>
  {
    var at := FindHeading(lines, aliases);
    if at == |lines| then lines + [headingLine, bullet]
    else
      var end := FindSectionEnd(lines, at + 1);
      lines[..at] + [headingLine] + SectionBullets(lines[at + 1..end], bullet, maxItems) + lines[end..]
  }

  lemma HeadingLineNotBlank(heading: string)
    ensures !Blank(HeadingLine(heading))
  {
    NotBlankStart(HeadingLine(heading));
  }

  lemma {:induction false} LiveBulletsSound(lines: seq<string>)
    ensures forall l :: l in LiveBullets(lines) <==> l in lines && IsBullet(l) && !IsPlaceholder(l)
  {
    if lines != [] { LiveBulletsSound(lines[1..]); }
  }

  lemma UpsertLinesView(lines: seq<string>, aliases: seq<string>, headingLine: string, bullet: string, maxItems: nat)
    requires !Blank(bullet) && !Blank(headingLine)
    ensures NonBlank(UpsertBulletLines(lines, aliases, headingLine, bullet, maxItems)) ==
            UpsertView(NonBlank(lines), aliases, headingLine, bullet, maxItems)
  {
    hide NonBlank, Blank, FindHeading, FindSectionEnd, HeadingMatches;
    var at := FindHeading(lines, aliases);
    if at == |lines| {
      FindHeadingSpec(lines, aliases);
      UpsertAbsentView(lines, aliases, headingLine, bullet);
      FindHeadingSpec(NonBlank(lines), aliases);
      assert FindHeading(NonBlank(lines), aliases) == |NonBlank(lines)|;
      assert [headingLine] + [bullet] == [headingLine, bullet];
      assert lines + [] + [headingLine] + [bullet] == lines + [headingLine] + [bullet];
    } else {
      SectionSplit(lines, aliases);
      UpsertFoundView(lines, aliases, headingLine, bullet, maxItems, at, FindSectionEnd(lines, at + 1));
    }
  }

  lemma UpsertFoundView(lines: seq<string>, aliases: seq<string>, headingLine: string, bullet: string, maxItems: nat,
                        at: nat, end: nat)
    requires !Blank(headingLine) && SectionAt(lines, aliases, at, end)
    ensures UpsertView(NonBlank(lines), aliases, headingLine, bullet, maxItems) ==
            NonBlank(lines[..at] + [headingLine] + SectionBullets(lines[at + 1..end], bullet, maxItems) + [""] +
                     lines[end..])
  {
    var body := lines[at + 1..end];
    ViewSection(lines, aliases, at, end);
    ViewParts(lines, at, end);
    SectionFound(NonBlank(lines), aliases, ViewAt(lines, at), ViewEnd(lines, at, end));
    NonBlankSound(body);
    NonBlankFixed(NonBlank(body));
    SectionBulletsSound(body, bullet, maxItems);
    UpsertPresentView(lines[..at], headingLine, SectionBullets(body, bullet, maxItems), lines[end..]);
  }

  lemma UpsertAbsentView(lines: seq<string>, aliases: seq<string>, headingLine: string, bullet: string)
    requires NoHeading(lines, aliases) && !Blank(headingLine) && !Blank(bullet)
    ensures NonBlank(lines + [headingLine] + [bullet]) == NonBlank(lines) + [headingLine, bullet]
    ensures NonBlank(lines + [""] + [headingLine] + [bullet]) == NonBlank(lines) + [headingLine, bullet]
    ensures NoHeading(NonBlank(lines), aliases)
  {
    hide NonBlank, HeadingMatches, Blank, NoHeading;
    BlankLineView(lines);
    AppendedView(lines, headingLine, bullet);
    AppendedView(lines + [""], headingLine, bullet);
    NoHeadingKept(lines, aliases);
  }

  lemma AppendedView(lines: seq<string>, headingLine: string, bullet: string)
    requires !Blank(headingLine) && !Blank(bullet)
    ensures NonBlank(lines + [headingLine] + [bullet]) == NonBlank(lines) + [headingLine, bullet]
  {
    hide NonBlank, Blank;
    NonBlankSnoc(lines, headingLine);
    NonBlankSnoc(lines + [headingLine], bullet);
    Assoc(NonBlank(lines), [headingLine], [bullet]);
    assert [headingLine] + [bullet] == [headingLine, bullet];
  }

  lemma NoHeadingKept(lines: seq<string>, aliases: seq<string>)
    requires NoHeading(lines, aliases)
    ensures NoHeading(NonBlank(lines), aliases)
  {
    hide HeadingMatches, Blank, NonBlank;
    NonBlankSound(lines);
  }

  lemma BlankLineView(lines: seq<string>)
    ensures NonBlank(lines + [""]) == NonBlank(lines)
  {
    assert Blank("");
    hide Blank, NonBlank;
    NonBlankSnoc(lines, "");
  }

  lemma HeadedView(before: seq<string>, headingLine: string, bullets: seq<string>)
    requires !Blank(headingLine) && forall l | l in bullets :: !Blank(l)
    ensures NonBlank(before + [headingLine] + bullets) == NonBlank(before) + [headingLine] + bullets
  {
    hide Blank, NonBlank;
    NonBlankFixed(bullets);
    NonBlankConcat(before + [headingLine], bullets);
    NonBlankSnoc(before, headingLine);
  }

  lemma UpsertPresentView(before: seq<string>, headingLine: string, bullets: seq<string>, after: seq<string>)
    requires !Blank(headingLine) && forall l | l in bullets :: !Blank(l)
    ensures NonBlank(before + [headingLine] + bullets + [""] + after) ==
            NonBlank(before) + [headingLine] + bullets + NonBlank(after)
  {
    hide NonBlank, Blank;
    var written := before + [headingLine] + bullets;
    HeadedView(before, headingLine, bullets);
    BlankLineView(written);
    NonBlankConcat(written + [""], after);
  }

  lemma SectionBulletsSound(body: seq<string>, bullet: string, maxItems: nat)
    ensures forall l | l in SectionBullets(body, bullet, maxItems) :: IsBullet(l) && !Blank(l)
  {
    var live := LiveBullets([bullet] + Without(NonBlank(body), bullet));
    LiveBulletsSound([bullet] + Without(NonBlank(body), bullet));
    forall l | l in Take(live, maxItems) ensures IsBullet(l) && !Blank(l) {
      assert l in live;
    }
  }

  lemma {:induction false} WithoutSound(lines: seq<string>, bullet: string)
    ensures forall l | l in Without(lines, bullet) :: l in lines
  {
    if lines != [] { WithoutSound(lines[1..], bullet); }
  }

  lemma SectionBulletsPlain(body: seq<string>, bullet: string, maxItems: nat)
    requires PlainLines(body) && Plain(bullet)
    ensures PlainLines(SectionBullets(body, bullet, maxItems))
  {
    NonBlankSound(body);
    var kept := Without(NonBlank(body), bullet);
    WithoutSound(NonBlank(body), bullet);
    LiveBulletsSound([bullet] + kept);
    forall l | l in SectionBullets(body, bullet, maxItems) ensures Plain(l) {
      assert l in LiveBullets([bullet] + kept);
      assert l == bullet || l in body;
    }
  }

  lemma UpsertLinesPlain(lines: seq<string>, aliases: seq<string>, headingLine: string, bullet: string, maxItems: nat)
    requires PlainLines(lines) && Plain(headingLine) && Plain(bullet)
    ensures PlainLines(UpsertBulletLines(lines, aliases, headingLine, bullet, maxItems))
    ensures UpsertBulletLines(lines, aliases, headingLine, bullet, maxItems) != []
  {
    var at := FindHeading(lines, aliases);
    if at < |lines| {
      var end := FindSectionEnd(lines, at + 1);
      var bullets := SectionBullets(lines[at + 1..end], bullet, maxItems);
      SectionBulletsPlain(lines[at + 1..end], bullet, maxItems);
      PlainConcat(lines[..at], [headingLine]);
      PlainConcat(lines[..at] + [headingLine], bullets);
      PlainConcat(lines[..at] + [headingLine] + bullets, [""]);
      PlainConcat(lines[..at] + [headingLine] + bullets + [""], lines[end..]);
    }
  }

  // The text that upsertMarkdownBullet returns reads as the view's upsert, for
  // every text, heading and bullet that are single lines.
  lemma UpsertText(content: string, heading: string, bullet: string, maxItems: nat)
    requires Plain(HeadingLine(heading)) && Plain(bullet) && !Blank(bullet)
    ensures View(UpsertMarkdownBullet(content, heading, bullet, maxItems)) ==
            StripLast(UpsertView(View(content), SectionHeadingAliases(heading), HeadingLine(heading), bullet, maxItems))
  {
    var aliases, headingLine := SectionHeadingAliases(heading), HeadingLine(heading);
    DocumentLinesPlain(content);
    HeadingLineNotBlank(heading);
    UpsertLinesPlain(DocumentLines(content), aliases, headingLine, bullet, maxItems);
    RenderView(UpsertBulletLines(DocumentLines(content), aliases, headingLine, bullet, maxItems));
    UpsertLinesView(DocumentLines(content), aliases, headingLine, bullet, maxItems);
  }

  // Upserting into a section leaves every line before its heading and from the
  // next heading on as it was, and drops from the section exactly the lines
  // that are not live bullets, the older copies of the bullet, and the overflow.
  lemma UpsertTouchesOneSection(content: string, heading: string, bullet: string, maxItems: nat, at: nat, end: nat)
    requires Plain(HeadingLine(heading)) && Plain(bullet) && !Blank(bullet)
    requires SectionAt(View(content), SectionHeadingAliases(heading), at, end)
    ensures var v := View(content);
            View(UpsertMarkdownBullet(content, heading, bullet, maxItems)) ==
            StripLast(v[..at] + [HeadingLine(heading)] +
                      Take(LiveBullets([bullet] + Without(v[at + 1..end], bullet)), maxItems) + v[end..])
  {
    UpsertText(content, heading, bullet, maxItems);
    var v := View(content);
    var section := v[at + 1..end];
    SectionFound(v, SectionHeadingAliases(heading), at, end);
    NonBlankSlice(DocumentLines(content), at + 1, end);
    hide View, NonBlank, SectionAt, SectionHeadingAliases, HeadingLine, UpsertMarkdownBullet, LiveBullets, Without,
         Take, StripLast, FindHeading, FindSectionEnd, Plain, Blank;
    assert NonBlank(section) == section;
  }

  // ---------------------------------------------- the most recently used list

  ghost predicate CanonicalBullet(b: string) {
    Plain(b) && Trimmed(b) && StartsWith(b, "- ") && !IsPlaceholder(b)
  }

  ghost predicate CanonicalBullets(bs: seq<string>) {
    forall b | b in bs :: CanonicalBullet(b)
  }

  ghost predicate CanonicalHeading(heading: string) {
    var p := PreferredSectionHeading(heading);
    p != "" && Trimmed(p) && NoTerminator(p)
  }

  function Drop(s: seq<string>, x: string): seq<string> {
    if s == [] then [] else (if s[0] == x then [] else [s[0]]) + Drop(s[1..], x)
  }

  // The distinct values, the latest first.
  function Recent(bs: seq<string>): seq<string> {
    if bs == [] then []
    else
      var last := bs[|bs| - 1];
      [last] + Drop(Recent(bs[..|bs| - 1]), last)
  }

  lemma {:induction false} DropConcat(a: seq<string>, b: seq<string>, x: string)
    ensures Drop(a + b, x) == Drop(a, x) + Drop(b, x)
  {
    if a == [] {
      assert a + b == b;
    } else {
      assert (a + b)[1..] == a[1..] + b;
      DropConcat(a[1..], b, x);
    }
  }

  lemma {:induction false} DropMembers(s: seq<string>, x: string)
    ensures forall l :: l in Drop(s, x) <==> l in s && l != x
    ensures x !in s ==> Drop(s, x) == s
  {
    if s != [] { DropMembers(s[1..], x); }
  }

  lemma {:induction false} DropDistinct(s: seq<string>, x: string)
    requires NoRepeat(s)
    ensures NoRepeat(Drop(s, x)) && |s| <= |Drop(s, x)| + 1
  {
    if s != [] {
      var rest := s[1..];
      assert NoRepeat(rest) && s[0] !in rest;
      DropMembers(rest, x);
      DropDistinct(rest, x);
      var d := Drop(rest, x);
      assert forall k | 0 <= k < |d| :: d[k] in d;
      if s[0] != x { assert Drop(s, x) == [s[0]] + d; } else { assert Drop(s, x) == d; }
    }
  }

  lemma DropSound(s: seq<string>, x: string)
    ensures forall l :: l in Drop(s, x) <==> l in s && l != x
    ensures NoRepeat(s) ==> NoRepeat(Drop(s, x)) && |s| <= |Drop(s, x)| + 1
    ensures x !in s ==> Drop(s, x) == s
  {
    DropMembers(s, x);
    hide Drop;
    if NoRepeat(s) { DropDistinct(s, x); }
  }

  // x occurs at a place from which y no longer occurs.
  ghost predicate Later(bs: seq<string>, x: string, y: string) {
    exists i :: 0 <= i < |bs| && bs[i] == x && y !in bs[i..]
  }

  ghost predicate LatestFirst(s: seq<string>, bs: seq<string>) {
    forall i, j | 0 <= i < j < |s| :: Later(bs, s[i], s[j])
  }

  // Recent lists each value once, ordered by where it occurred last.
  lemma {:induction false} RecentSpec(bs: seq<string>)
    ensures NoRepeat(Recent(bs))
    ensures forall x :: x in Recent(bs) <==> x in bs
    ensures LatestFirst(Recent(bs), bs)
  {
    if bs != [] {
      var n := |bs| - 1;
      assert bs == bs[..n] + [bs[n]];
      RecentSpec(bs[..n]);
      RecentStep(bs[..n], bs[n], Recent(bs[..n]));
    }
  }

  lemma RecentStep(init: seq<string>, last: string, r: seq<string>)
    requires NoRepeat(r) && LatestFirst(r, init)
    ensures NoRepeat([last] + Drop(r, last))
    ensures forall x :: x in [last] + Drop(r, last) <==> x == last || x in r
    ensures LatestFirst([last] + Drop(r, last), init + [last])
  {
    DropSound(r, last);
    DropKeepsOrder(r, last, init);
    PushLatest(init, last, Drop(r, last));
  }

  lemma PushLatest(init: seq<string>, last: string, d: seq<string>)
    requires last !in d && LatestFirst(d, init) && NoRepeat(d)
    ensures NoRepeat([last] + d) && LatestFirst([last] + d, init + [last])
  {
    var bs, s := init + [last], [last] + d;
    assert forall k | 0 < k < |s| :: s[k] == d[k - 1] && d[k - 1] in d;
    assert bs[|init|..] == [last];
    forall i, j | 0 <= i < j < |s| ensures Later(bs, s[i], s[j]) {
      if i == 0 {
        assert bs[|init|] == last && s[j] !in bs[|init|..];
      } else {
        LaterSnoc(init, last, d[i - 1], d[j - 1]);
      }
    }
  }

  lemma LaterSnoc(bs: seq<string>, last: string, x: string, y: string)
    requires Later(bs, x, y) && y != last
    ensures Later(bs + [last], x, y)
  {
    var i :| 0 <= i < |bs| && bs[i] == x && y !in bs[i..];
    assert (bs + [last])[i..] == bs[i..] + [last];
  }

  lemma {:induction false} DropKeepsOrder(s: seq<string>, x: string, bs: seq<string>)
    requires LatestFirst(s, bs)
    ensures LatestFirst(Drop(s, x), bs)
  {
    if s != [] {
      DropKeepsOrder(s[1..], x, bs);
      DropSound(s[1..], x);
      forall y | y in s[1..] ensures Later(bs, s[0], y) {
        var j :| 0 <= j < |s[1..]| && s[1..][j] == y;
        assert s[j + 1] == y;
      }
      var d := Drop(s[1..], x);
      assert forall j | 0 <= j < |d| :: d[j] in s[1..];
    }
  }

  // Cutting the list at every step is the same as cutting it once at the end.
  lemma CutOnce(d: seq<string>, b: string, n: nat)
    requires NoRepeat(d) && n > 0
    ensures Take([b] + Drop(Take(d, n), b), n) == Take([b] + Drop(d, b), n)
  {
    if n < |d| {
      var (x, y) := (d[..n], d[n..]);
      assert d == x + y;
      DropConcat(x, y, b);
      DropSound(x, b);
      assert [b] + Drop(d, b) == ([b] + Drop(x, b)) + Drop(y, b);
    }
  }

  lemma CanonicalLine(m: string, b: string)
    requires CanonicalBullet(m) && CanonicalBullet(b)
    ensures (Trim(m) == Trim(b) <==> m == b) && IsBullet(m) && !IsPlaceholder(m) && !Blank(m)
  {
    TrimFixed(m);
    TrimFixed(b);
  }

  lemma {:induction false} CanonicalSection(m: seq<string>, b: string)
    requires CanonicalBullets(m) && CanonicalBullet(b)
    ensures Without(m, b) == Drop(m, b) && LiveBullets(m) == m && NonBlank(m) == m
  {
    if m != [] {
      CanonicalLine(m[0], b);
      CanonicalSection(m[1..], b);
    }
  }

  lemma {:induction false} AliasIncluded(names: seq<string>, name: string)
    requires name in names && Trimmed(name) && name != ""
    ensures ToLower(name) in CleanAliases(names)
  {
    TrimFixed(name);
    if names[0] != name { AliasIncluded(names[1..], name); }
  }

  lemma PreferredIsAlias(heading: string)
    ensures PreferredSectionHeading(heading) in [heading] + SectionAliases(heading)
  {
  }

  // The heading line that an upsert writes is the one the next upsert finds.
  lemma HeadingLineMatches(heading: string)
    requires CanonicalHeading(heading)
    ensures HeadingMatches(HeadingLine(heading), SectionHeadingAliases(heading)) && Plain(HeadingLine(heading))
  {
    var p := PreferredSectionHeading(heading);
    PreferredIsAlias(heading);
    AliasIncluded([heading] + SectionAliases(heading), p);
    HeadingTextOf(p);
  }

  lemma HeadingTextOf(p: string)
    requires p != "" && Trimmed(p) && NoTerminator(p)
    ensures HeadingText("## " + p) == Some(p) && Plain("## " + p)
  {
    var t := "## " + p;
    TrimFixed(t);
    assert t[2..] == " " + p && (" " + p)[1..] == p;
    TrimFixed(p);
    assert forall c | c in p :: !IsLineTerminator(c);
  }

  lemma BulletIsNoHeading(b: string, aliases: seq<string>)
    requires CanonicalBullet(b)
    ensures !HeadingMatches(b, aliases) && !IsAtxHeading(b) && !Blank(b)
  {
    TrimFixed(b);
    assert b[0] == '-';
  }

  function UpsertAll(content: string, heading: string, bullets: seq<string>, maxItems: nat): string {
    if bullets == [] then content
    else
      var n := |bullets| - 1;
      UpsertMarkdownBullet(UpsertAll(content, heading, bullets[..n], maxItems), heading, bullets[n], maxItems)
  }

  lemma UpsertAllNext(content: string, heading: string, init: seq<string>, b: string, maxItems: nat)
    ensures UpsertAll(content, heading, [], maxItems) == content
    ensures UpsertAll(content, heading, init + [b], maxItems) ==
            UpsertMarkdownBullet(UpsertAll(content, heading, init, maxItems), heading, b, maxItems)
  {
    hide UpsertMarkdownBullet;
    assert (init + [b])[..|init|] == init;
  }

  // After any run of upserts under one heading that the text did not have, the
  // text is the original followed by that heading and the maxItems most
  // recently upserted distinct bullets, newest first.
  lemma {:induction false} UpsertsKeepMostRecent(content: string, heading: string, bullets: seq<string>, maxItems: nat)
    requires bullets != [] && maxItems > 0
    requires CanonicalHeading(heading) && CanonicalBullets(bullets)
    requires NoHeading(View(content), SectionHeadingAliases(heading))
    ensures View(UpsertAll(content, heading, bullets, maxItems)) ==
            View(content) + [HeadingLine(heading)] + Take(Recent(bullets), maxItems)
  {
    var n := |bullets| - 1;
    var init, b := bullets[..n], bullets[n];
    var text := UpsertAll(content, heading, init, maxItems);
    if init == [] {
      FirstUpsert(content, heading, b, maxItems);
      assert Recent(bullets) == [b];
    } else {
      UpsertsKeepMostRecent(content, heading, init, maxItems);
      RecentSpec(init);
      var m := Take(Recent(init), maxItems);
      assert forall x | x in m :: x in Recent(init);
      NextUpsert(text, heading, b, maxItems, View(content), m);
      CutOnce(Recent(init), b, maxItems);
    }
  }

  lemma FirstUpsert(content: string, heading: string, b: string, maxItems: nat)
    requires CanonicalHeading(heading) && CanonicalBullet(b)
    requires NoHeading(View(content), SectionHeadingAliases(heading))
    ensures View(UpsertMarkdownBullet(content, heading, b, maxItems)) == View(content) + [HeadingLine(heading)] + [b]
  {
    hide View, SectionHeadingAliases, HeadingLine, CanonicalHeading, UpsertMarkdownBullet, HeadingMatches, IsBullet,
         IsPlaceholder, StripLast, FindHeading, FindSectionEnd, SectionBullets;
    var v, aliases, headingLine := View(content), SectionHeadingAliases(heading), HeadingLine(heading);
    HeadingLineMatches(heading);
    BulletIsNoHeading(b, aliases);
    UpsertText(content, heading, b, maxItems);
    FindHeadingSpec(v, aliases);
    assert v + [headingLine, b] == v + [headingLine] + [b];
    StripCanonical(v + [headingLine], [b]);
  }

  lemma BulletSection(before: seq<string>, headingLine: string, m: seq<string>, aliases: seq<string>)
    requires NoHeading(before, aliases) && HeadingMatches(headingLine, aliases) && CanonicalBullets(m)
    ensures var v := before + [headingLine] + m;
            SectionAt(v, aliases, |before|, |v|) && v[..|before|] == before && v[|before| + 1..|v|] == m &&
                v[|v|..] == []
  {
    var v, at := before + [headingLine] + m, |before|;
    SliceConcat(before, headingLine, m);
    assert forall j | 0 <= j < at :: v[j] == before[j];
    forall j | at < j < |v| ensures !IsAtxHeading(v[j]) {
      assert v[j] == m[j - at - 1];
      BulletIsNoHeading(v[j], aliases);
    }
  }

  lemma NextUpsert(text: string, heading: string, b: string, maxItems: nat, before: seq<string>, m: seq<string>)
    requires maxItems > 0 && CanonicalHeading(heading) && CanonicalBullet(b) && CanonicalBullets(m)
    requires NoHeading(before, SectionHeadingAliases(heading))
    requires View(text) == before + [HeadingLine(heading)] + m
    ensures View(UpsertMarkdownBullet(text, heading, b, maxItems)) ==
            before + [HeadingLine(heading)] + Take([b] + Drop(m, b), maxItems)
  {
    var aliases, headingLine := SectionHeadingAliases(heading), HeadingLine(heading);
    HeadingLineMatches(heading);
    BulletIsNoHeading(b, aliases);
    BulletSection(before, headingLine, m, aliases);
    UpsertTouchesOneSection(text, heading, b, maxItems, |before|, |View(text)|);
    CanonicalSection(m, b);
    DropSound(m, b);
    CanonicalSection([b] + Drop(m, b), b);
    var out := Take([b] + Drop(m, b), maxItems);
    StripCanonical(before + [headingLine], out);
    assert before + [headingLine] + out + [] == before + [headingLine] + out;
  }

  lemma StripCanonical(init: seq<string>, bullets: seq<string>)
    requires bullets != [] && CanonicalBullets(bullets)
    ensures StripLast(init + bullets) == init + bullets
  {
    var n := |bullets| - 1;
    assert CanonicalBullet(bullets[n]);
    TrimFixed(bullets[n]);
    assert init + bullets == (init + bullets[..n]) + [bullets[n]];
    StripLastSnoc(init + bullets[..n], bullets[n]);
  }

  // ------------------------------------------- a section that exists already

  function DropAll(s: seq<string>, xs: seq<string>): seq<string> {
    if s == [] then [] else (if s[0] in xs then [] else [s[0]]) + DropAll(s[1..], xs)
  }

  lemma {:induction false} DropAllNext(s: seq<string>, xs: seq<string>, x: string)
    ensures DropAll(s, xs + [x]) == Drop(DropAll(s, xs), x)
  {
    if s != [] {
      DropAllNext(s[1..], xs, x);
      DropConcat(if s[0] in xs then [] else [s[0]], DropAll(s[1..], xs), x);
      assert s[0] in xs + [x] <==> s[0] in xs || s[0] == x;
      assert Drop([s[0]], x) == if s[0] == x then [] else [s[0]];
    }
  }

  lemma {:induction false} DropAllSound(s: seq<string>, xs: seq<string>)
    ensures forall l :: l in DropAll(s, xs) <==> l in s && l !in xs
    ensures NoRepeat(s) ==> NoRepeat(DropAll(s, xs))
  {
    if s != [] {
      DropAllSound(s[1..], xs);
      if NoRepeat(s) {
        var d := DropAll(s[1..], xs);
        assert s[0] !in s[1..];
        assert forall k | 0 <= k < |d| :: d[k] in s[1..];
      }
    }
  }

  // The recent bullets, and after them the old ones that are not among them.
  function RecentThenOld(bs: seq<string>, before: seq<string>): seq<string> {
    Recent(bs) + DropAll(before, bs)
  }

  lemma RecentThenOldNext(bs: seq<string>, b: string, before: seq<string>)
    ensures RecentThenOld(bs + [b], before) == [b] + Drop(RecentThenOld(bs, before), b)
  {
    assert (bs + [b])[..|bs|] == bs;
    DropAllNext(before, bs, b);
    DropConcat(Recent(bs), DropAll(before, bs), b);
  }

  lemma RecentThenOldSound(bs: seq<string>, before: seq<string>)
    requires NoRepeat(before) && CanonicalBullets(bs) && CanonicalBullets(before)
    ensures NoRepeat(RecentThenOld(bs, before)) && CanonicalBullets(RecentThenOld(bs, before))
  {
    hide CanonicalBullet;
    RecentSpec(bs);
    DropAllSound(before, bs);
    var r, d := Recent(bs), DropAll(before, bs);
    hide Recent, DropAll;
    assert forall k | 0 <= k < |d| :: d[k] in d;
    assert forall k | 0 <= k < |r| :: r[k] in r;
  }

  lemma CanonicalInit(bs: seq<string>, b: string)
    requires CanonicalBullets(bs + [b])
    ensures CanonicalBullets(bs) && CanonicalBullet(b)
  {
    hide CanonicalBullet;
    assert (bs + [b])[|bs|] == b;
    assert forall l | l in bs :: l in bs + [b];
  }

  lemma {:induction false} LiveWithout(section: seq<string>, b: string)
    requires CanonicalBullet(b) && CanonicalBullets(LiveBullets(section))
    ensures LiveBullets(Without(section, b)) == Drop(LiveBullets(section), b)
  {
    if section != [] {
      var l, rest := section[0], section[1..];
      hide CanonicalBullet, IsBullet, IsPlaceholder, Trim;
      assert forall x | x in LiveBullets(rest) :: x in LiveBullets(section);
      LiveWithout(rest, b);
      LiveCons(l, Without(rest, b));
      if IsBullet(l) && !IsPlaceholder(l) {
        assert l in LiveBullets(section);
        CanonicalLine(l, b);
        assert ([l] + LiveBullets(rest))[1..] == LiveBullets(rest);
      }
      assert [] + Without(rest, b) == Without(rest, b) && [] + LiveBullets(rest) == LiveBullets(rest);
    }
  }

  lemma LiveCons(l: string, lines: seq<string>)
    ensures LiveBullets([l] + lines) ==
            (if IsBullet(l) && !IsPlaceholder(l) then [l] else []) + LiveBullets(lines)
  {
    assert ([l] + lines)[1..] == lines;
  }

  lemma PushedCanonical(b: string, live: seq<string>, maxItems: nat)
    requires CanonicalBullet(b) && CanonicalBullets(live) && maxItems > 0
    ensures var out := Take([b] + Drop(live, b), maxItems); out != [] && CanonicalBullets(out)
  {
    hide CanonicalBullet;
    DropSound(live, b);
  }

  // One upsert into a section whose live bullets are canonical.
  lemma UpsertIntoSection(content: string, heading: string, b: string, maxItems: nat, at: nat, end: nat)
    requires maxItems > 0 && CanonicalHeading(heading) && CanonicalBullet(b)
    requires SectionAt(View(content), SectionHeadingAliases(heading), at, end)
    requires CanonicalBullets(LiveBullets(View(content)[at + 1..end]))
    ensures var v := View(content);
            View(UpsertMarkdownBullet(content, heading, b, maxItems)) ==
            v[..at] + [HeadingLine(heading)] + Take([b] + Drop(LiveBullets(v[at + 1..end]), b), maxItems) +
            StripLast(v[end..])
  {
    var v := View(content);
    var before, section, after := v[..at], v[at + 1..end], v[end..];
    HeadingLineMatches(heading);
    BulletIsNoHeading(b, []);
    CanonicalLine(b, b);
    hide View, SectionHeadingAliases, HeadingLine, CanonicalHeading, HeadingMatches, SectionAt, UpsertMarkdownBullet,
         LiveBullets, Plain, Blank, IsBullet, IsPlaceholder, Trim, Drop, Without, Take, StripLast;
    UpsertTouchesOneSection(content, heading, b, maxItems, at, end);
    LiveWithout(section, b);
    LiveCons(b, Without(section, b));
    PushedCanonical(b, LiveBullets(section), maxItems);
    StripAfter(before + [HeadingLine(heading)], Take([b] + Drop(LiveBullets(section), b), maxItems), after);
  }

  lemma StripAfter(init: seq<string>, bullets: seq<string>, after: seq<string>)
    requires bullets != [] && CanonicalBullets(bullets)
    ensures StripLast(init + bullets + after) == init + bullets + StripLast(after)
  {
    hide CanonicalBullet;
    if after == [] {
      StripCanonical(init, bullets);
      assert init + bullets + after == init + bullets;
    } else {
      assert (init + bullets + after)[..|init + bullets + after| - 1] == init + bullets + after[..|after| - 1];
    }
  }

  // These pieces are the section again, if what follows it is still a heading
  // once the end of the text is trimmed.
  lemma BulletsAndRest(before: seq<string>, headingLine: string, m: seq<string>, after: seq<string>,
                       aliases: seq<string>)
    requires NoHeading(before, aliases) && HeadingMatches(headingLine, aliases) && CanonicalBullets(m)
    requires after != [] ==> IsAtxHeading(after[0])
    ensures var v, at, end := before + [headingLine] + m + after, |before|, |before| + 1 + |m|;
            SectionAt(v, aliases, at, end) && v[..at] == before && v[at + 1..end] == m && v[end..] == after
  {
    hide HeadingMatches, IsAtxHeading, CanonicalBullet;
    var v, at, end := before + [headingLine] + m + after, |before|, |before| + 1 + |m|;
    assert v[..at] == before && v[at + 1..end] == m && v[end..] == after;
    assert forall j | 0 <= j < at :: v[j] == before[j];
    forall j | at < j < end ensures !IsAtxHeading(v[j]) {
      assert v[j] == m[j - at - 1];
      BulletIsNoHeading(v[j], aliases);
    }
  }

  lemma {:induction false} CanonicalLive(m: seq<string>)
    requires CanonicalBullets(m)
    ensures LiveBullets(m) == m
  {
    if m != [] {
      CanonicalLine(m[0], m[0]);
      CanonicalLive(m[1..]);
    }
  }

  lemma NothingRecent(before: seq<string>)
    ensures RecentThenOld([], before) == before
  {
    assert Recent([]) == [];
    assert [] + DropAll(before, []) == DropAll(before, []);
    DropNothing(before);
  }

  lemma {:induction false} DropNothing(s: seq<string>)
    ensures DropAll(s, []) == s
  {
    if s != [] { DropNothing(s[1..]); }
  }

  lemma NextIntoSection(text: string, heading: string, b: string, maxItems: nat, before: seq<string>, d: seq<string>,
                        after: seq<string>)
    requires maxItems > 0 && CanonicalHeading(heading) && CanonicalBullet(b) && CanonicalBullets(d) && NoRepeat(d)
    requires NoHeading(before, SectionHeadingAliases(heading))
    requires StripLast(after) == after && (after != [] ==> IsAtxHeading(after[0]))
    requires View(text) == before + [HeadingLine(heading)] + Take(d, maxItems) + after
    ensures View(UpsertMarkdownBullet(text, heading, b, maxItems)) ==
            before + [HeadingLine(heading)] + Take([b] + Drop(d, b), maxItems) + after
  {
    var aliases, m := SectionHeadingAliases(heading), Take(d, maxItems);
    HeadingLineMatches(heading);
    assert CanonicalBullets(m) by { assert forall l | l in m :: l in d; }
    hide View, SectionHeadingAliases, HeadingLine, CanonicalHeading, HeadingMatches, UpsertMarkdownBullet,
         LiveBullets, CanonicalBullet, IsAtxHeading, NoRepeat, Take, Drop, StripLast, Plain;
    BulletsAndRest(before, HeadingLine(heading), m, after, aliases);
    CanonicalLive(m);
    UpsertIntoSection(text, heading, b, maxItems, |before|, |before| + 1 + |m|);
    CutOnce(d, b, maxItems);
  }

  // The section of v once these bullets stand under its heading.
  function WithBullets(v: seq<string>, headingLine: string, bullets: seq<string>, at: nat, end: nat): seq<string>
    requires at < end <= |v|
  {
    v[..at] + [headingLine] + bullets + StripLast(v[end..])
  }

  lemma IntoSectionFirst(content: string, heading: string, b: string, maxItems: nat, at: nat, end: nat)
    requires maxItems > 0 && CanonicalHeading(heading) && CanonicalBullet(b)
    requires SectionAt(View(content), SectionHeadingAliases(heading), at, end)
    requires CanonicalBullets(LiveBullets(View(content)[at + 1..end]))
    ensures View(UpsertMarkdownBullet(content, heading, b, maxItems)) ==
            WithBullets(View(content), HeadingLine(heading),
                        Take([b] + Drop(LiveBullets(View(content)[at + 1..end]), b), maxItems), at, end)
  {
    hide View, SectionHeadingAliases, HeadingLine, CanonicalHeading, UpsertMarkdownBullet, CanonicalBullet,
         CanonicalBullets, LiveBullets, Take, Drop, StripLast;
    UpsertIntoSection(content, heading, b, maxItems, at, end);
  }

  lemma IntoSectionStep(text: string, heading: string, b: string, maxItems: nat, v: seq<string>, d: seq<string>,
                        at: nat, end: nat)
    requires maxItems > 0 && CanonicalHeading(heading) && CanonicalBullet(b) && CanonicalBullets(d) && NoRepeat(d)
    requires at < end <= |v| && NoHeading(v[..at], SectionHeadingAliases(heading))
    requires end < |v| ==> IsAtxHeading(StripLast(v[end..])[0])
    requires View(text) == WithBullets(v, HeadingLine(heading), Take(d, maxItems), at, end)
    ensures View(UpsertMarkdownBullet(text, heading, b, maxItems)) ==
            WithBullets(v, HeadingLine(heading), Take([b] + Drop(d, b), maxItems), at, end)
  {
    StripLastTwice(v[end..]);
    hide View, SectionHeadingAliases, HeadingLine, CanonicalHeading, NoHeading, UpsertMarkdownBullet, CanonicalBullet,
         CanonicalBullets, IsAtxHeading, NoRepeat, Take, Drop, StripLast;
    NextIntoSection(text, heading, b, maxItems, v[..at], d, StripLast(v[end..]));
  }

  lemma BeforeSection(v: seq<string>, aliases: seq<string>, at: nat, end: nat)
    requires SectionAt(v, aliases, at, end)
    ensures NoHeading(v[..at], aliases)
  {
    hide HeadingMatches, IsAtxHeading;
  }

  // After any run of upserts under a heading that the text has, its section is the
  // maxItems most recently upserted distinct bullets, newest first, and then the
  // live bullets it had in their order, cut at maxItems.
  lemma {:induction false} UpsertsIntoSection(content: string, heading: string, bullets: seq<string>, maxItems: nat,
                                              at: nat, end: nat)
    requires bullets != [] && maxItems > 0
    requires CanonicalHeading(heading) && CanonicalBullets(bullets)
    requires at < end <= |View(content)| && SectionAt(View(content), SectionHeadingAliases(heading), at, end)
    requires var live := LiveBullets(View(content)[at + 1..end]); CanonicalBullets(live) && NoRepeat(live)
    requires end < |View(content)| ==> IsAtxHeading(StripLast(View(content)[end..])[0])
    ensures View(UpsertAll(content, heading, bullets, maxItems)) ==
            WithBullets(View(content), HeadingLine(heading),
                        Take(RecentThenOld(bullets, LiveBullets(View(content)[at + 1..end])), maxItems), at, end)
    decreases |bullets|
  {
    hide View, SectionHeadingAliases, HeadingLine, CanonicalHeading, UpsertMarkdownBullet, UpsertAll, SectionAt,
         LiveBullets, RecentThenOld, CanonicalBullets, CanonicalBullet, IsAtxHeading, NoHeading, StripLast, Take, Drop,
         NoRepeat, WithBullets;
    var v := View(content);
    var live := LiveBullets(v[at + 1..end]);
    var init, b := bullets[..|bullets| - 1], bullets[|bullets| - 1];
    assert bullets == init + [b];
    BeforeSection(v, SectionHeadingAliases(heading), at, end);
    CanonicalInit(init, b);
    RecentThenOldNext(init, b, live);
    RecentThenOldSound(init, live);
    UpsertAllNext(content, heading, init, b, maxItems);
    if init == [] {
      IntoSectionFirst(content, heading, b, maxItems, at, end);
      NothingRecent(live);
    } else {
      UpsertsIntoSection(content, heading, init, maxItems, at, end);
      IntoSectionStep(UpsertAll(content, heading, init, maxItems), heading, b, maxItems, v, RecentThenOld(init, live),
                      at, end);
    }
  }
}
