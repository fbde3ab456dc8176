// importKnowledgeMarkdown of server/knowledge-space.js: the parts of a text become
// the documents of a consensus, or a draft against the documents it has. A
// section's document is found by its normalized title.
module KnowledgeImport {
  import opened Text
  import opened Wrappers
  import Markdown = KnowledgeMarkdown
  import opened KnowledgeSessions

  // ------------------------------------------------------- document ids

  // stableId('doc', workspaceId, consensusId, part), taken as injective in the
  // cleaned part; the root's part is the word root.
  function DocId(consensusId: string, part: string): string {
    "doc_" + consensusId + "::" + Trim(part)
  }

  function RootId(consensusId: string): string {
    DocId(consensusId, "root")
  }

  // What an import knows of a consensus: its id, the id of its root document, and
  // which documents are its children.
  datatype Group = Group(consensusId: string, rootId: string, isChild: Document -> bool)

  // A consensus that the space had no document of.
  function NewGroup(consensusId: string): Group {
    var rootId := RootId(consensusId);
    Group(consensusId, rootId, (doc: Document) => doc.parentId == rootId)
  }

  // The first child whose title normalizes to the key.
  function FindChild(norm: string -> string, isChild: Document -> bool, docs: seq<Document>, key: string): (i: nat)
    ensures i <= |docs| && (i < |docs| ==> isChild(docs[i]) && norm(docs[i].title) == key)
  {
    if docs == [] || (isChild(docs[0]) && norm(docs[0].title) == key) then 0
    else 1 + FindChild(norm, isChild, docs[1..], key)
  }

  // sectionDocIdForConsensus; norm is normalizeConsensusTitle.
  function SectionDocId(norm: string -> string, docs: seq<Document>, group: Group, title: string): string {
    var i := FindChild(norm, group.isChild, docs, norm(title));
    if i < |docs| then docs[i].id else DocId(group.consensusId, title)
  }

  // ------------------------------------------------------- a new consensus

  // The documents that the root and the first n sections are written to, in turn.
  function FreshDocs(norm: string -> string, space: Space, consensusId: string, c: Markdown.Consensus,
                     n: nat): (r: seq<ImportedDocument>)
    requires n <= |c.sections|
    ensures |r| == n + 1
  {
    if n == 0 then [ImportedDocument(RootId(consensusId), c.title, "", 1, c.markdown)]
    else
      var before := FreshDocs(norm, space, consensusId, c, n - 1);
      var s := c.sections[n - 1];
      var id := SectionDocId(norm, ImportDocuments(space, before).documents, NewGroup(consensusId), s.title);
      before + [ImportedDocument(id, s.title, RootId(consensusId), 2, s.markdown)]
  }

  // The documents of the space after the root and n sections.
  function FreshSpace(norm: string -> string, space: Space, consensusId: string, c: Markdown.Consensus, n: nat): Space
    requires n <= |c.sections|
  {
    ImportDocuments(space, FreshDocs(norm, space, consensusId, c, n))
  }

  // The hierarchy links of the import: the document of each section in turn.
  function FreshLinks(norm: string -> string, space: Space, consensusId: string, c: Markdown.Consensus,
                      n: nat): (r: seq<string>)
    requires n <= |c.sections|
    ensures |r| == n
  {
    if n == 0 then []
    else FreshLinks(norm, space, consensusId, c, n - 1) + [FreshDocs(norm, space, consensusId, c, n)[n].id]
  }

  // ---------------------------------------------- a consensus that exists

  // The change that an import drafts for a section.
  function SectionInput(norm: string -> string, space: Space, group: Group, s: Markdown.Section): ChangeInput {
    var id := SectionDocId(norm, space.documents, group, s.title);
    if HasDocument(space, id) then ChangeInput(id, false, "", "", 0, s.markdown)
    else ChangeInput(id, true, s.title, group.rootId, 2, s.markdown)
  }

  // The changes it drafts for the root and the first n sections.
  function DraftInputs(norm: string -> string, space: Space, group: Group, c: Markdown.Consensus,
                       n: nat): (r: seq<ChangeInput>)
    requires n <= |c.sections|
    ensures |r| == n + 1
  {
    if n == 0 then [ChangeInput(group.rootId, false, "", "", 0, c.markdown)]
    else DraftInputs(norm, space, group, c, n - 1) + [SectionInput(norm, space, group, c.sections[n - 1])]
  }

  lemma SectionInputIs(norm: string -> string, space: Space, group: Group, s: Markdown.Section)
    ensures var id := SectionDocId(norm, space.documents, group, s.title);
            SectionInput(norm, space, group, s) ==
            if FindDocument(space.documents, id) < |space.documents| then ChangeInput(id, false, "", "", 0, s.markdown)
            else ChangeInput(id, true, s.title, group.rootId, 2, s.markdown)
  {
    hide SectionDocId, FindDocument;
  }

  lemma DraftStart(norm: string -> string, space: Space, group: Group, c: Markdown.Consensus)
    ensures DraftInputs(norm, space, group, c, 0) == [ChangeInput(group.rootId, false, "", "", 0, c.markdown)]
  {
  }

  lemma DraftNext(norm: string -> string, space: Space, group: Group, c: Markdown.Consensus, n: nat)
    requires n < |c.sections|
    ensures DraftInputs(norm, space, group, c, n + 1) ==
            DraftInputs(norm, space, group, c, n) + [SectionInput(norm, space, group, c.sections[n])]
  {
    hide SectionInput;
  }

  // ------------------------------------------------------- the object

  class Importer {
    const space: KnowledgeSpace
    var links: seq<string>

    constructor (space: KnowledgeSpace)
      ensures this.space == space && links == []
    {
      this.space := space;
      links := [];
    }

    // The consensus is new: the documents are written and a published session is
    // recorded. links are the hierarchy links of this root.
    method ImportNewConsensus(norm: string -> string, consensusId: string, sessionId: string, markdown: string)
      modifies this, space
      ensures var c := Markdown.Parsed(markdown);
              && space.State() == Import(old(space.State()), sessionId,
                                         FreshDocs(norm, old(space.State()), consensusId, c, |c.sections|))
              && links == FreshLinks(norm, old(space.State()), consensusId, c, |c.sections|)
    {
      hide UpsertDocument, SectionDocId, DocId, Markdown.StripHeading;
      var parsed := Markdown.SplitMarkdownByHeadings(markdown);
      ghost var c, before := Markdown.Parsed(markdown), space.State();
      ghost var docs := FreshDocs(norm, before, consensusId, c, 0);
      assert docs[..0] == [];
      space.UpsertDocumentFromMarkdown(RootId(consensusId), parsed.title, "", 1,
                                       Markdown.StripHeading(parsed.markdown, 1));
      links := [];
      for i := 0 to |parsed.sections|
        invariant docs == FreshDocs(norm, before, consensusId, c, i)
        invariant space.State() == ImportDocuments(before, docs)
        invariant links == FreshLinks(norm, before, consensusId, c, i)
      {
        var section := parsed.sections[i];
        var body := Markdown.StripHeading(section.markdown, 2);
        var id := SectionDocId(norm, space.documents, NewGroup(consensusId), section.title);
        space.UpsertDocumentFromMarkdown(id, section.title, RootId(consensusId), 2, body);
        links := links + [id];
        ghost var doc := ImportedDocument(id, section.title, RootId(consensusId), 2, body);
        assert (docs + [doc])[..|docs|] == docs;
        docs := docs + [doc];
      }
      space.changeSessions := space.changeSessions + [Session(sessionId, Published, true, false, [], [])];
    }

    // The consensus exists: a draft is created and no document changes.
    method DraftImport(norm: string -> string, group: Group, sessionId: string, markdown: string)
        returns (outcome: Outcome)
      modifies space
      ensures var c := Markdown.Parsed(markdown);
              (space.State(), outcome) ==
              CreateSession(old(space.State()), sessionId,
                            DraftInputs(norm, old(space.State()), group, c, |c.sections|))
    {
      hide SectionDocId, DocId, Markdown.StripHeading, NormalizeChanges, SectionInput, DraftInputs;
      var parsed := Markdown.SplitMarkdownByHeadings(markdown);
      ghost var c := Markdown.Parsed(markdown);
      DraftStart(norm, space.State(), group, c);
      var changes := [ChangeInput(group.rootId, false, "", "", 0, Markdown.StripHeading(parsed.markdown, 1))];
      for i := 0 to |parsed.sections|
        invariant space.State() == old(space.State())
        invariant changes == DraftInputs(norm, space.State(), group, c, i)
      {
        var section := parsed.sections[i];
        var body := Markdown.StripHeading(section.markdown, 2);
        var id := SectionDocId(norm, space.documents, group, section.title);
        var found := FindDocument(space.documents, id) < |space.documents|;
        var change := if found then ChangeInput(id, false, "", "", 0, body)
                      else ChangeInput(id, true, section.title, group.rootId, 2, body);
        SectionInputIs(norm, space.State(), group, c.sections[i]);
        DraftNext(norm, space.State(), group, c, i);
        changes := changes + [change];
      }
      outcome := space.CreateKnowledgeChangeSession(sessionId, changes);
    }
  }

  // ------------------------------------------------------- reading it off

  // The children in the order of their last links.
  function Children(docs: seq<Document>, links: seq<string>): seq<Markdown.Section> {
    if links == [] then []
    else
      var at := FindDocument(docs, links[0]);
      (if links[0] in links[1..] || at == |docs| then []
       else [Markdown.Section(docs[at].title, docs[at].sourceMarkdown)])
      + Children(docs, links[1..])
  }

  // What exportKnowledgeConsensusMarkdown takes from the space; None when the
  // root document is missing or has a parent, so that the consensus has no group.
  function ReadConsensus(space: Space, consensusId: string, links: seq<string>): Option<Markdown.Consensus> {
    var at := FindDocument(space.documents, RootId(consensusId));
    if at == |space.documents| || space.documents[at].parentId != "" then None
    else Some(Markdown.Consensus(space.documents[at].title, space.documents[at].sourceMarkdown,
                                 Children(space.documents, links)))
  }
}
