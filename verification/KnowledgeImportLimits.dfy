// Where an export does not import back: titles that meet in one document, and
// bodies that are not sealed.
module KnowledgeImportLimits {
  import opened Text
  import opened Wrappers
  import opened KnowledgeMarkdown
  import opened KnowledgeMarkdownRoundTrip
  import opened KnowledgeSessions
  import opened KnowledgeImport
  import opened KnowledgeImportRoundTrip

  // ------------------------------------------------- inputs that fail

  // Bodies that hold nothing a heading, a link or a fence begins with.
  ghost predicate PlainBody(body: string) {
    Trimmed(body) && forall c | c in body :: c != '#' && c != '`' && c != '\n' && c != '\r' && c != '-' && c != '*'
  }

  lemma PlainBodyIsNormal(body: string, level: nat)
    requires PlainBody(body) && level > 0
    ensures NormalBody(body, level)
  {
    NormalizeNewlineFixed(body);
    TrimFixed(body);
    MarksOfHash(level);
    hide NormalizeNewline, Trim;
    if |body| > level {
      assert body[..level][0] == body[0] && body[0] in body;
    }
  }

  lemma PlainBodyIsSealed(body: string)
    requires PlainBody(body)
    ensures Sealed(body)
  {
    SplitHeading(body);
    TrimIsTrimmed(body);
    assert Heading(body, 2).None? by {
      MarksOfHash(2);
      if |body| > 2 { assert body[..2][0] == body[0] && body[0] in body; }
    }
    assert !IsFence(body) by {
      if Trim(body) != "" { assert Trim(body)[0] in body && "```"[0] == '`'; }
    }
    assert [body][1..] == [];
  }

  lemma NothingStripped()
    ensures StripLinks("") == ""
  {
    SplitEmpty();
    assert !IsLinkLine("");
    assert [""][1..] == [];
    assert DropLinkLines([""]) == [""];
  }

  lemma LetterTitle(title: string)
    requires title in ["T", "A", "B", "root"]
    ensures NormalTitle(title) && Trim(title) == title
  {
    assert forall i | 0 <= i < |title| :: 'A' <= title[i] <= 'z' && title[i] != '\\';
    DecodeLetters(title);
    TrimFixed(title);
  }

  lemma {:induction false} DecodeLetters(s: string)
    requires '\\' !in s
    ensures Decode(s) == s
  {
    if s != "" { DecodeLetters(s[1..]); }
  }

  // A consensus with plain bodies is well formed and sealed.
  lemma PlainConsensus(c: Consensus)
    requires c.title == "T" && c.markdown == ""
    requires forall i | 0 <= i < |c.sections| ::
        c.sections[i].title in ["T", "A", "B", "root"] && PlainBody(c.sections[i].markdown)
    ensures Wellformed(c) && SealedConsensus(c) && Parsed(Export(c)) == c
  {
    LetterTitle("T");
    NothingStripped();
    PlainBodyIsNormal("", 1);
    PlainBodyIsSealed("");
    forall i | 0 <= i < |c.sections| ensures NormalTitle(c.sections[i].title) && NormalBody(c.sections[i].markdown, 2) {
      LetterTitle(c.sections[i].title);
      PlainBodyIsNormal(c.sections[i].markdown, 2);
    }
    hide NormalTitle, NormalBody, StripLinks, Quiet, CodeAfter, Parsed, Export;
    PlainSectionsAreSealed(c.sections);
    ExportParsesBackIff(c);
  }

  lemma {:induction false} PlainSectionsAreSealed(sections: seq<Section>)
    requires forall i | 0 <= i < |sections| :: PlainBody(sections[i].markdown)
    ensures SealedSections(sections)
  {
    hide Quiet, CodeAfter, PlainBody, Split;
    if sections != [] {
      PlainBodyIsSealed(sections[0].markdown);
      PlainSectionsAreSealed(sections[1..]);
    }
  }

  lemma EqualTitlesLink(norm: string -> string, space: Space, consensusId: string, c: Consensus)
    requires Lacks(space, consensusId) && |c.sections| == 2 && c.sections[0].title == c.sections[1].title
    ensures var id := DocId(consensusId, c.sections[0].title);
            FreshLinks(norm, space, consensusId, c, 2) == [id, id]
  {
    hide DocId, FreshLinks, Lacks;
    IdOfSection(norm, space, consensusId, c, 0);
    IdOfSection(norm, space, consensusId, c, 1);
    LinksPrefix(norm, space, consensusId, c, 1, 2);
    var links := FreshLinks(norm, space, consensusId, c, 2);
    assert links[0] == links[..1][0];
  }

  function TwoAs(): Consensus {
    Consensus("T", "", [Section("A", "x"), Section("A", "y")])
  }

  // Two sections with one title become one document with the second's text.
  lemma EqualTitlesMerge(norm: string -> string, space: Space, consensusId: string)
    requires Lacks(space, consensusId)
    ensures var c := TwoAs();
            && Wellformed(c) && SealedConsensus(c) && Parsed(Export(c)) == c && |c.sections| == 2
            && ReadConsensus(FreshSpace(norm, space, consensusId, c, 2), consensusId,
                             FreshLinks(norm, space, consensusId, c, 2))
               == Some(Consensus("T", "", [Section("A", "y")]))
  {
    TwoAsArePlain();
    RootIsNotA(consensusId);
    hide DocId, FreshLinks, FreshSpace, Wellformed, SealedConsensus, Parsed, Export, Lacks, ReadConsensus, TwoAs,
         RootId;
    var c := TwoAs();
    PlainConsensus(c);
    EqualTitlesLink(norm, space, consensusId, c);
    ImportedConsensus(norm, space, consensusId, c);
    LastOfTwo(FreshLinks(norm, space, consensusId, c, 2), c.sections);
  }

  lemma TwoAsArePlain()
    ensures var c := TwoAs();
            && c.title == "T" && c.markdown == "" && |c.sections| == 2 && c.sections[1] == Section("A", "y")
            && forall i | 0 <= i < 2 :: c.sections[i].title == "A" && PlainBody(c.sections[i].markdown)
  {
  }

  lemma RootIsNotA(consensusId: string)
    ensures DocId(consensusId, "A") != RootId(consensusId)
  {
    LetterTitle("A");
    LetterTitle("root");
    SamePart(consensusId, "A", "root");
    assert "A"[0] != "root"[0];
  }

  lemma LastOfTwo(ids: seq<string>, sections: seq<Section>)
    requires |ids| == |sections| == 2 && ids[0] == ids[1]
    ensures LastOfEach(ids, sections) == [sections[1]]
  {
    assert ids[1..] == [ids[1]] && sections[1..] == [sections[1]] && ids[1..][1..] == [];
  }

  // A section titled root takes the place of the root document.
  lemma RootTitleTakesRoot(norm: string -> string, space: Space, consensusId: string)
    requires Lacks(space, consensusId)
    ensures var c := Consensus("T", "", [Section("root", "x")]);
            && Wellformed(c) && SealedConsensus(c) && Parsed(Export(c)) == c
            && ReadConsensus(FreshSpace(norm, space, consensusId, c, 1), consensusId,
                             FreshLinks(norm, space, consensusId, c, 1)) == None
  {
    var c := Consensus("T", "", [Section("root", "x")]);
    PlainConsensus(c);
    hide DocId, FreshLinks, FreshSpace, Wellformed, SealedConsensus, Parsed, Export, Lacks, Trim, ReadConsensus;
    IdOfSection(norm, space, consensusId, c, 0);
    var links := FreshLinks(norm, space, consensusId, c, 1);
    assert links[0] in links;
    ImportedConsensus(norm, space, consensusId, c);
  }

  // A heading outside a fence opens a section of its own.
  lemma HeadingInBodySplits()
    ensures var c := Consensus("T", "", [Section("A", "x\n## y")]);
            Wellformed(c) && !SealedConsensus(c) && Parsed(Export(c)) != c
  {
    HeadingBody();
    OneSection(Consensus("T", "", [Section("A", "x\n## y")]), "x\n## y");
  }

  lemma HeadingBody()
    ensures NormalBody("x\n## y", 2) && !Quiet(Split("x\n## y"), false)
  {
    NoSuchHeading("x\n## y");
    hide Split, NormalBody, Quiet, IsFence, Heading;
    HeadingLines();
    LetterIsNoFence();
    HeadingOfLetter();
    OpensLater("x", "## y");
  }

  lemma HeadingOfLetter()
    ensures Heading("## y", 2).Some?
  {
    DecodeLetters("y");
    MarkedIs("y");
    HeadingOfMarked(2, "y");
    hide Heading, Marked;
  }

  lemma LetterIsNoFence()
    ensures !IsFence("x")
  {
    TrimFixed("x");
  }

  lemma HeadingLines()
    ensures Split("x\n## y") == ["x", "## y"]
  {
    SplitHeading("x");
    SplitHeading("## y");
    hide Split;
    SplitConcat("x", "## y");
    assert "x\n## y" == "x" + "\n" + "## y";
    assert ["x"] + ["## y"] == ["x", "## y"];
  }

  lemma NoSuchHeading(body: string)
    requires |body| > 2 && body[0] != '#' && Trimmed(body) && '\r' !in body
    ensures NormalBody(body, 2)
  {
    NormalizeNewlineFixed(body);
    TrimFixed(body);
    MarksOfHash(2);
    hide NormalizeNewline, Trim;
    assert body[..2][0] != Marks(2)[0];
  }

  lemma OpensLater(first: string, second: string)
    requires !IsFence(first) && Heading(second, 2).Some?
    ensures !Quiet([first, second], false)
  {
    hide IsFence, Heading;
    assert [first, second][1..] == [second];
  }

  lemma OneSection(c: Consensus, body: string)
    requires c == Consensus("T", "", [Section("A", body)])
    requires NormalBody(body, 2) && !Quiet(Split(body), false)
    ensures Wellformed(c) && !SealedConsensus(c) && Parsed(Export(c)) != c
  {
    hide NormalBody, Quiet, CodeAfter, Parsed, Export, Split, NormalTitle, StripLinks;
    LetterTitle("T");
    LetterTitle("A");
    NothingStripped();
    PlainBodyIsNormal("", 1);
    assert c.sections[0] == Section("A", body);
    assert Wellformed(c);
    ExportParsesBackIff(c);
  }

  // A fence that a body leaves open swallows the section after it.
  lemma OpenFenceSwallows()
    ensures var c := Consensus("T", "", [Section("A", "```"), Section("B", "")]);
            Wellformed(c) && !SealedConsensus(c) && Parsed(Export(c)) != c
  {
    hide NormalTitle, NormalBody, StripLinks, Quiet, CodeAfter, Parsed, Export, Split;
    var body := "```";
    var c := Consensus("T", "", [Section("A", body), Section("B", "")]);
    FenceIsNormal();
    LetterTitle("T");
    LetterTitle("A");
    LetterTitle("B");
    NothingStripped();
    PlainBodyIsNormal("", 1);
    PlainBodyIsNormal("", 2);
    assert forall i | 0 <= i < 2 :: NormalTitle(c.sections[i].title) && NormalBody(c.sections[i].markdown, 2);
    assert Wellformed(c);
    assert c.sections[0].markdown == body && |c.sections| > 1;
    ExportParsesBackIff(c);
  }

  lemma FenceIsNormal()
    ensures NormalBody("```", 2) && !Sealed("```")
  {
    var body := "```";
    TrimFixed(body);
    NormalizeNewlineFixed(body);
    MarksOfHash(2);
    assert body[..2][0] == '`' && Marks(2)[0] == '#';
    SplitHeading(body);
    assert IsFence(body);
    assert [body][1..] == [];
    hide NormalizeNewline, Trim;
    assert CodeAfter([body], false);
  }
}
