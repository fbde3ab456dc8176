// Importing the text of an exported consensus into a space that does not have it:
// exactly when the space then holds the same consensus.
module KnowledgeImportRoundTrip {
  import opened Text
  import opened Wrappers
  import opened KnowledgeMarkdown
  import opened KnowledgeMarkdownRoundTrip
  import opened KnowledgeMarkdownWeights
  import opened KnowledgeSessions
  import opened KnowledgeImport
  import History = KnowledgeHistory

  ghost predicate DistinctDocuments(docs: seq<Document>) {
    forall i, j | 0 <= i < j < |docs| :: docs[i].id != docs[j].id
  }

  // The space has no document of the consensus.
  ghost predicate Lacks(space: Space, consensusId: string) {
    && DistinctDocuments(space.documents)
    && forall i | 0 <= i < |space.documents| ::
         space.documents[i].parentId != RootId(consensusId) && !IsPartId(consensusId, space.documents[i].id)
  }

  ghost predicate IsPartId(consensusId: string, id: string) {
    exists part: string :: id == DocId(consensusId, part)
  }

  // ------------------------------------------------------- one document

  lemma FoundIsMember(docs: seq<Document>, at: nat)
    requires DistinctDocuments(docs) && at < |docs|
    ensures FindDocument(docs, docs[at].id) == at
  {
    History.FindDocumentSpec(docs, docs[at].id);
  }

  lemma UpsertFinds(a: Space, id: string, title: string, parentId: string, level: int, markdown: string)
    ensures var b := UpsertDocument(a, id, title, parentId, level, markdown);
            && HasDocument(b, id) && DocumentOf(b, id).id == id && DocumentOf(b, id).title == title
            && DocumentOf(b, id).parentId == parentId && DocumentOf(b, id).sourceMarkdown == markdown
            && forall x: string | x != id ::
                 HasDocument(b, x) == HasDocument(a, x) && (HasDocument(a, x) ==> DocumentOf(b, x) == DocumentOf(a, x))
  {
    History.UpsertExtends(a, id, title, parentId, level, markdown);
    var b := UpsertDocument(a, id, title, parentId, level, markdown);
    var at := FindDocument(a.documents, id);
    History.FindDocumentSpec(a.documents, id);
    if at < |a.documents| {
      History.ReplacedDocument(a.documents, at, b.documents[at], id);
    } else {
      History.FindDocumentSnoc(a.documents, b.documents[at], id);
    }
  }

  lemma UpsertMembers(a: Space, id: string, title: string, parentId: string, level: int, markdown: string)
    requires DistinctDocuments(a.documents)
    ensures var b := UpsertDocument(a, id, title, parentId, level, markdown);
            && DistinctDocuments(b.documents)
            && forall j | 0 <= j < |b.documents| ::
                 (b.documents[j].id == id && b.documents[j].parentId == parentId) || b.documents[j] in a.documents
  {
    History.FindDocumentSpec(a.documents, id);
    hide NewVersion;
  }

  // ----------------------------------------------------- the whole import

  // The space after n sections has the root, each document with the text of its
  // last section, and no other child of the root.
  ghost predicate Holds(space: Space, consensusId: string, c: Consensus, links: seq<string>)
    requires |links| <= |c.sections|
  {
    var rootId := RootId(consensusId);
    && DistinctDocuments(space.documents)
    && HasDocument(space, rootId)
    && (rootId in links ==> DocumentOf(space, rootId).parentId == rootId)
    && (rootId !in links ==>
          var root := DocumentOf(space, rootId);
          root.title == c.title && root.sourceMarkdown == c.markdown && root.parentId == "")
    && (forall i: nat | i < |links| && links[i] !in links[i + 1..] ::
        HoldsSection(space, consensusId, links[i], c.sections[i]))
    && (forall j | 0 <= j < |space.documents| && space.documents[j].parentId == rootId ::
        space.documents[j].id in links)
  }

  ghost predicate HoldsSection(space: Space, consensusId: string, id: string, s: Section) {
    && HasDocument(space, id) && DocumentOf(space, id).title == s.title
    && DocumentOf(space, id).sourceMarkdown == s.markdown && DocumentOf(space, id).parentId == RootId(consensusId)
  }

  lemma RootIdIsText(consensusId: string)
    ensures RootId(consensusId) != ""
  {
  }

  lemma HoldsRoot(norm: string -> string, space: Space, consensusId: string, c: Consensus)
    requires Lacks(space, consensusId)
    ensures Holds(FreshSpace(norm, space, consensusId, c, 0), consensusId, c,
                  FreshLinks(norm, space, consensusId, c, 0))
  {
    var rootId := RootId(consensusId);
    var docs := FreshDocs(norm, space, consensusId, c, 0);
    assert docs[..0] == [] && ImportDocuments(space, []) == space;
    RootIdIsText(consensusId);
    hide DocId, UpsertDocument, HasDocument, DocumentOf, RootId, IsPartId;
    UpsertFinds(space, rootId, c.title, "", 1, c.markdown);
    UpsertMembers(space, rootId, c.title, "", 1, c.markdown);
    var b := FreshSpace(norm, space, consensusId, c, 0);
    forall j | 0 <= j < |b.documents| ensures b.documents[j].parentId != rootId {
      if b.documents[j] in space.documents {
        var i :| 0 <= i < |space.documents| && space.documents[i] == b.documents[j];
      }
    }
  }

  lemma FreshStep(norm: string -> string, space: Space, consensusId: string, c: Consensus, n: nat)
    requires n < |c.sections|
    ensures var a, s := FreshSpace(norm, space, consensusId, c, n), c.sections[n];
            var id := SectionDocId(norm, a.documents, NewGroup(consensusId), s.title);
            && FreshSpace(norm, space, consensusId, c, n + 1) ==
               UpsertDocument(a, id, s.title, RootId(consensusId), 2, s.markdown)
            && FreshLinks(norm, space, consensusId, c, n + 1) == FreshLinks(norm, space, consensusId, c, n) + [id]
  {
    hide SectionDocId, UpsertDocument, DocId;
    var before := FreshDocs(norm, space, consensusId, c, n);
    var docs := FreshDocs(norm, space, consensusId, c, n + 1);
    assert docs[..|docs| - 1] == before;
  }

  // b is a with a section written to the document with this id.
  ghost predicate Written(a: Space, b: Space, consensusId: string, id: string, s: Section) {
    && DistinctDocuments(b.documents)
    && HoldsSection(b, consensusId, id, s)
    && (forall x: string | x != id ::
          HasDocument(b, x) == HasDocument(a, x) && (HasDocument(a, x) ==> DocumentOf(b, x) == DocumentOf(a, x)))
    && (forall j | 0 <= j < |b.documents| :: b.documents[j].id == id || b.documents[j] in a.documents)
  }

  lemma UpsertWrites(a: Space, consensusId: string, id: string, s: Section)
    requires DistinctDocuments(a.documents)
    ensures Written(a, UpsertDocument(a, id, s.title, RootId(consensusId), 2, s.markdown), consensusId, id, s)
  {
    hide RootId, HasDocument, DocumentOf, DistinctDocuments, UpsertDocument;
    UpsertFinds(a, id, s.title, RootId(consensusId), 2, s.markdown);
    UpsertMembers(a, id, s.title, RootId(consensusId), 2, s.markdown);
  }

  lemma SectionsNext(a: Space, b: Space, consensusId: string, c: Consensus, links: seq<string>, id: string, i: nat)
    requires |links| < |c.sections| && Holds(a, consensusId, c, links)
    requires Written(a, b, consensusId, id, c.sections[|links|])
    requires i <= |links| && (links + [id])[i] !in (links + [id])[i + 1..]
    ensures HoldsSection(b, consensusId, (links + [id])[i], c.sections[i])
  {
    hide RootId, HasDocument, DocumentOf, DistinctDocuments;
    var n, next := |links|, links + [id];
    if i < n {
      assert next[i + 1..] == links[i + 1..] + [id];
      assert HoldsSection(a, consensusId, links[i], c.sections[i]);
      assert links[i] != id;
    }
  }

  lemma ChildrenNext(a: Space, b: Space, consensusId: string, c: Consensus, links: seq<string>, id: string, j: nat)
    requires |links| < |c.sections| && Holds(a, consensusId, c, links)
    requires Written(a, b, consensusId, id, c.sections[|links|])
    requires j < |b.documents| && b.documents[j].parentId == RootId(consensusId)
    ensures b.documents[j].id in links + [id]
  {
    hide RootId, HasDocument, DocumentOf, DistinctDocuments, HoldsSection;
    if b.documents[j].id != id {
      var k :| 0 <= k < |a.documents| && a.documents[k] == b.documents[j];
      assert a.documents[k].id in links;
    }
  }

  lemma RootNext(a: Space, b: Space, consensusId: string, c: Consensus, links: seq<string>, id: string)
    requires |links| < |c.sections| && Holds(a, consensusId, c, links)
    requires Written(a, b, consensusId, id, c.sections[|links|])
    ensures var rootId := RootId(consensusId);
            && HasDocument(b, rootId)
            && (rootId in links + [id] ==> DocumentOf(b, rootId).parentId == rootId)
            && (rootId !in links + [id] ==> DocumentOf(b, rootId) == DocumentOf(a, rootId) && rootId !in links)
  {
    hide RootId, HasDocument, DocumentOf, DistinctDocuments;
  }

  lemma HoldsNext(a: Space, b: Space, consensusId: string, c: Consensus, links: seq<string>, id: string)
    requires |links| < |c.sections| && Holds(a, consensusId, c, links)
    requires Written(a, b, consensusId, id, c.sections[|links|])
    ensures Holds(b, consensusId, c, links + [id])
  {
    hide RootId, HasDocument, DocumentOf, HoldsSection, DistinctDocuments;
    var next := links + [id];
    RootNext(a, b, consensusId, c, links, id);
    forall i: nat | i < |next| && next[i] !in next[i + 1..]
      ensures HoldsSection(b, consensusId, next[i], c.sections[i])
    {
      SectionsNext(a, b, consensusId, c, links, id, i);
    }
    forall j | 0 <= j < |b.documents| && b.documents[j].parentId == RootId(consensusId)
      ensures b.documents[j].id in next
    {
      ChildrenNext(a, b, consensusId, c, links, id, j);
    }
  }

  lemma {:induction false} ImportHolds(norm: string -> string, space: Space, consensusId: string, c: Consensus, n: nat)
    requires Lacks(space, consensusId) && n <= |c.sections|
    ensures Holds(FreshSpace(norm, space, consensusId, c, n), consensusId, c,
                  FreshLinks(norm, space, consensusId, c, n))
    decreases n
  {
    hide Holds, Lacks, FreshSpace, FreshLinks;
    if n == 0 {
      HoldsRoot(norm, space, consensusId, c);
    } else {
      ImportHolds(norm, space, consensusId, c, n - 1);
      HoldsStep(norm, space, consensusId, c, n - 1);
    }
  }

  lemma HoldsStep(norm: string -> string, space: Space, consensusId: string, c: Consensus, n: nat)
    requires n < |c.sections|
    requires Holds(FreshSpace(norm, space, consensusId, c, n), consensusId, c,
                   FreshLinks(norm, space, consensusId, c, n))
    ensures Holds(FreshSpace(norm, space, consensusId, c, n + 1), consensusId, c,
                  FreshLinks(norm, space, consensusId, c, n + 1))
  {
    hide Holds, FreshSpace, FreshLinks, SectionDocId, UpsertDocument, RootId;
    var a, links := FreshSpace(norm, space, consensusId, c, n), FreshLinks(norm, space, consensusId, c, n);
    FreshStep(norm, space, consensusId, c, n);
    HoldsUpsert(a, consensusId, c, links, SectionDocId(norm, a.documents, NewGroup(consensusId), c.sections[n].title));
  }

  lemma HoldsUpsert(a: Space, consensusId: string, c: Consensus, links: seq<string>, id: string)
    requires |links| < |c.sections| && Holds(a, consensusId, c, links)
    ensures var s := c.sections[|links|];
            Holds(UpsertDocument(a, id, s.title, RootId(consensusId), 2, s.markdown), consensusId, c, links + [id])
  {
    var s := c.sections[|links|];
    hide RootId, Written, HasDocument, DocumentOf, HoldsSection, UpsertDocument, DistinctDocuments;
    UpsertWrites(a, consensusId, id, s);
    HoldsNext(a, UpsertDocument(a, id, s.title, RootId(consensusId), 2, s.markdown), consensusId, c, links, id);
  }

  // ------------------------------------------------------- reading it off

  // The sections whose document no later section was written to.
  function LastOfEach(ids: seq<string>, sections: seq<Section>): (r: seq<Section>)
    requires |ids| == |sections|
    ensures |r| <= |sections|
  {
    if ids == [] then []
    else (if ids[0] in ids[1..] then [] else [sections[0]]) + LastOfEach(ids[1..], sections[1..])
  }

  lemma {:induction false} ChildrenAreLast(space: Space, consensusId: string, c: Consensus, links: seq<string>, i: nat)
    requires |links| == |c.sections| && Holds(space, consensusId, c, links) && i <= |links|
    ensures Children(space.documents, links[i..]) == LastOfEach(links[i..], c.sections[i..])
    decreases |links| - i
  {
    if i < |links| {
      ChildrenAreLast(space, consensusId, c, links, i + 1);
      assert links[i..][1..] == links[i + 1..] && c.sections[i..][1..] == c.sections[i + 1..];
      hide LastOfEach, DistinctDocuments, RootId;
      if links[i] !in links[i + 1..] { assert HoldsSection(space, consensusId, links[i], c.sections[i]); }
      ChildrenHead(space.documents, links[i..]);
      LastHead(links[i..], c.sections[i..]);
    }
  }

  lemma ChildrenHead(docs: seq<Document>, links: seq<string>)
    requires links != []
    ensures var at := FindDocument(docs, links[0]);
            Children(docs, links) ==
            (if links[0] in links[1..] || at == |docs| then [] else [Section(docs[at].title, docs[at].sourceMarkdown)])
            + Children(docs, links[1..])
  {
  }

  lemma LastHead(ids: seq<string>, sections: seq<Section>)
    requires |ids| == |sections| && ids != []
    ensures LastOfEach(ids, sections) ==
            (if ids[0] in ids[1..] then [] else [sections[0]]) + LastOfEach(ids[1..], sections[1..])
  {
  }

  // What the space holds after an import: nothing that can be exported if a
  // section was written to the root's document, and else the last section of
  // each document.
  lemma ImportedConsensus(norm: string -> string, space: Space, consensusId: string, c: Consensus)
    requires Lacks(space, consensusId)
    ensures var n := |c.sections|;
            var links := FreshLinks(norm, space, consensusId, c, n);
            ReadConsensus(FreshSpace(norm, space, consensusId, c, n), consensusId, links) ==
            if RootId(consensusId) in links then None
            else Some(Consensus(c.title, c.markdown, LastOfEach(links, c.sections)))
  {
    var n := |c.sections|;
    var b, links := FreshSpace(norm, space, consensusId, c, n), FreshLinks(norm, space, consensusId, c, n);
    ImportHolds(norm, space, consensusId, c, n);
    ChildrenAreLast(b, consensusId, c, links, 0);
    assert links[0..] == links && c.sections[0..] == c.sections;
    RootIdIsText(consensusId);
    hide FreshSpace, FreshLinks, LastOfEach, DistinctDocuments, HoldsSection, RootId;
  }

  // A document has the root for its parent exactly when a link leads to it.
  lemma ChildrenAreLinked(norm: string -> string, space: Space, consensusId: string, c: Consensus, j: nat)
    requires Lacks(space, consensusId)
    requires var b := FreshSpace(norm, space, consensusId, c, |c.sections|); j < |b.documents|
    ensures var b := FreshSpace(norm, space, consensusId, c, |c.sections|);
            b.documents[j].parentId == RootId(consensusId) <==>
            b.documents[j].id in FreshLinks(norm, space, consensusId, c, |c.sections|)
  {
    var n := |c.sections|;
    var b, links := FreshSpace(norm, space, consensusId, c, n), FreshLinks(norm, space, consensusId, c, n);
    ImportHolds(norm, space, consensusId, c, n);
    hide FreshSpace, FreshLinks, RootId;
    if b.documents[j].id in links {
      var i := LastIndex(links, b.documents[j].id);
      assert HoldsSection(b, consensusId, links[i], c.sections[i]);
      FoundIsMember(b.documents, j);
    }
  }

  lemma {:induction false} LastIndex(links: seq<string>, id: string) returns (i: nat)
    requires id in links
    ensures i < |links| && links[i] == id && id !in links[i + 1..]
  {
    if id in links[1..] {
      var k := LastIndex(links[1..], id);
      i := k + 1;
      assert links[i + 1..] == links[1..][k + 1..];
    } else {
      i := 0;
    }
  }

  // ------------------------------------------------------ names that are apart

  // No two titles are normalized to one.
  ghost predicate TitlesApart(norm: string -> string, sections: seq<Section>) {
    forall i, j | 0 <= i < j < |sections| :: norm(sections[i].title) != norm(sections[j].title)
  }

  // And no section takes the root's id.
  ghost predicate NamesApart(norm: string -> string, sections: seq<Section>) {
    && TitlesApart(norm, sections)
    && (forall i | 0 <= i < |sections| :: sections[i].title != "root")
  }

  lemma {:induction false} FindChildSpec(norm: string -> string, isChild: Document -> bool, docs: seq<Document>,
                                         key: string)
    ensures var i := FindChild(norm, isChild, docs, key);
            i == |docs| ==> forall j | 0 <= j < |docs| :: !(isChild(docs[j]) && norm(docs[j].title) == key)
  {
    if docs != [] && !(isChild(docs[0]) && norm(docs[0].title) == key) {
      FindChildSpec(norm, isChild, docs[1..], key);
    }
  }

  lemma SamePart(consensusId: string, a: string, b: string)
    ensures DocId(consensusId, a) == DocId(consensusId, b) <==> Trim(a) == Trim(b)
  {
    hide Trim;
    var p := "doc_" + consensusId + "::";
    assert (p + Trim(a))[|p|..] == Trim(a) && (p + Trim(b))[|p|..] == Trim(b);
  }

  lemma {:induction false} LinksPrefix(norm: string -> string, space: Space, consensusId: string, c: Consensus, k: nat,
                                       n: nat)
    requires k <= n <= |c.sections|
    ensures FreshLinks(norm, space, consensusId, c, n)[..k] == FreshLinks(norm, space, consensusId, c, k)
    decreases n
  {
    hide FreshDocs;
    if k < n {
      LinksPrefix(norm, space, consensusId, c, k, n - 1);
      var links := FreshLinks(norm, space, consensusId, c, n);
      assert links[..k] == links[..n - 1][..k];
    }
  }

  // A child of the root carries the section whose link leads to it.
  lemma ChildIsSection(space: Space, consensusId: string, c: Consensus, links: seq<string>, j: nat) returns (i: nat)
    requires |links| <= |c.sections| && Holds(space, consensusId, c, links)
    requires j < |space.documents| && space.documents[j].parentId == RootId(consensusId)
    ensures i < |links| && links[i] == space.documents[j].id && space.documents[j].title == c.sections[i].title
  {
    i := LastIndex(links, space.documents[j].id);
    assert HoldsSection(space, consensusId, links[i], c.sections[i]);
    FoundIsMember(space.documents, j);
  }

  // The section before k, if any, with the normalized title of section k.
  lemma IdOfSection(norm: string -> string, space: Space, consensusId: string, c: Consensus, k: nat)
    requires Lacks(space, consensusId) && k < |c.sections|
    ensures var links := FreshLinks(norm, space, consensusId, c, k + 1);
            && links[..k] == FreshLinks(norm, space, consensusId, c, k)
            && (links[k] == DocId(consensusId, c.sections[k].title) ||
                exists i :: 0 <= i < k && links[k] == links[i] &&
                    norm(c.sections[i].title) == norm(c.sections[k].title))
            && (NoRepeat(links) ==>
                  && links[k] == DocId(consensusId, c.sections[k].title)
                  && forall i | 0 <= i < k :: norm(c.sections[i].title) != norm(c.sections[k].title))
  {
    var a, before := FreshSpace(norm, space, consensusId, c, k), FreshLinks(norm, space, consensusId, c, k);
    ImportHolds(norm, space, consensusId, c, k);
    FreshStep(norm, space, consensusId, c, k);
    hide DocId, RootId, Lacks, FreshSpace, FreshLinks, UpsertDocument;
    var links := before + [SectionDocId(norm, a.documents, NewGroup(consensusId), c.sections[k].title)];
    assert links[..k] == before;
    var key := norm(c.sections[k].title);
    var isChild := NewGroup(consensusId).isChild;
    var p := FindChild(norm, isChild, a.documents, key);
    FindChildSpec(norm, isChild, a.documents, key);
    if p < |a.documents| {
      var i := ChildIsSection(a, consensusId, c, before, p);
      assert links[i] == links[k];
    } else if NoRepeat(links) {
      forall i: nat | i < k ensures norm(c.sections[i].title) != key {
        OtherIsSection(a, consensusId, c, before, i);
        var d := FindDocument(a.documents, before[i]);
        assert a.documents[d].title == c.sections[i].title;
      }
    }
  }

  lemma OtherIsSection(space: Space, consensusId: string, c: Consensus, links: seq<string>, i: nat)
    requires |links| <= |c.sections| && Holds(space, consensusId, c, links) && NoRepeat(links) && i < |links|
    ensures HoldsSection(space, consensusId, links[i], c.sections[i])
  {
    assert links[i] !in links[i + 1..];
  }

  // Links that do not repeat mean titles that do not, and the ids of their titles.
  lemma LinksApart(norm: string -> string, space: Space, consensusId: string, c: Consensus)
    requires Lacks(space, consensusId)
    requires var links := FreshLinks(norm, space, consensusId, c, |c.sections|);
             NoRepeat(links) && RootId(consensusId) !in links
    ensures NamesApart(norm, c.sections)
  {
    hide FreshLinks, DocId, Lacks;
    var n := |c.sections|;
    var links := FreshLinks(norm, space, consensusId, c, n);
    forall i, k | 0 <= i < k < n ensures norm(c.sections[i].title) != norm(c.sections[k].title) {
      LinkApart(norm, space, consensusId, c, k);
    }
    forall k | 0 <= k < n ensures c.sections[k].title != "root" {
      LinkApart(norm, space, consensusId, c, k);
      assert links[k] in links;
    }
  }

  lemma LinkApart(norm: string -> string, space: Space, consensusId: string, c: Consensus, k: nat)
    requires Lacks(space, consensusId) && k < |c.sections|
    requires NoRepeat(FreshLinks(norm, space, consensusId, c, |c.sections|))
    ensures FreshLinks(norm, space, consensusId, c, |c.sections|)[k] == DocId(consensusId, c.sections[k].title)
    ensures forall i | 0 <= i < k :: norm(c.sections[i].title) != norm(c.sections[k].title)
  {
    hide FreshLinks, DocId, Lacks;
    var n := |c.sections|;
    var links := FreshLinks(norm, space, consensusId, c, n);
    LinksPrefix(norm, space, consensusId, c, k + 1, n);
    IdOfSection(norm, space, consensusId, c, k);
    assert NoRepeat(links[..k + 1]);
  }

  lemma {:induction false} NamesApartLinks(norm: string -> string, space: Space, consensusId: string, c: Consensus,
                                           k: nat)
    requires Lacks(space, consensusId) && NamesApart(norm, c.sections) && k <= |c.sections|
    requires forall i | 0 <= i < |c.sections| :: Trimmed(c.sections[i].title)
    ensures var links := FreshLinks(norm, space, consensusId, c, k);
            forall i | 0 <= i < k :: links[i] == DocId(consensusId, c.sections[i].title)
    decreases k
  {
    hide FreshLinks, DocId, Lacks, Trimmed;
    if k > 0 {
      NamesApartLinks(norm, space, consensusId, c, k - 1);
      IdOfSection(norm, space, consensusId, c, k - 1);
      var links := FreshLinks(norm, space, consensusId, c, k);
      forall i | 0 <= i < k - 1 ensures links[i] == DocId(consensusId, c.sections[i].title) {
        assert links[i] == links[..k - 1][i];
      }
    }
  }

  lemma PartsApart(norm: string -> string, consensusId: string, sections: seq<Section>, links: seq<string>)
    requires NamesApart(norm, sections) && |links| == |sections|
    requires forall i | 0 <= i < |sections| :: Trimmed(sections[i].title)
    requires forall i | 0 <= i < |links| :: links[i] == DocId(consensusId, sections[i].title)
    ensures NoRepeat(links) && RootId(consensusId) !in links
  {
    TrimFixed("root");
    hide DocId, Trimmed, Trim;
    forall i, j | 0 <= i < j < |links| ensures links[i] != links[j] {
      TrimFixed(sections[i].title);
      TrimFixed(sections[j].title);
      SamePart(consensusId, sections[i].title, sections[j].title);
    }
    forall i | 0 <= i < |links| ensures links[i] != RootId(consensusId) {
      TrimFixed(sections[i].title);
      SamePart(consensusId, sections[i].title, "root");
    }
  }

  lemma {:induction false} AllAreLast(ids: seq<string>, sections: seq<Section>)
    requires |ids| == |sections|
    ensures NoRepeat(ids) ==> LastOfEach(ids, sections) == sections
    ensures |LastOfEach(ids, sections)| == |sections| ==> NoRepeat(ids) && LastOfEach(ids, sections) == sections
  {
    if ids != [] {
      AllAreLast(ids[1..], sections[1..]);
      hide LastOfEach;
      LastHead(ids, sections);
      if NoRepeat(ids) {
        assert forall i | 0 <= i < |ids[1..]| :: ids[1..][i] == ids[i + 1];
        assert NoRepeat(ids[1..]);
      }
      if |LastOfEach(ids, sections)| == |sections| {
        assert ids[0] !in ids[1..] && NoRepeat(ids[1..]);
        forall i, j | 0 <= i < j < |ids| ensures ids[i] != ids[j] {
          assert ids[j] == ids[1..][j - 1];
          if i > 0 { assert ids[i] == ids[1..][i - 1]; }
        }
      }
      assert sections == [sections[0]] + sections[1..];
    }
  }

  // --------------------------------------------------------- the round trip

  ghost predicate AllTitled(sections: seq<Section>) {
    forall i | 0 <= i < |sections| :: sections[i].title != ""
  }

  lemma TitledRest(head: seq<Section>, rest: seq<Section>)
    requires AllTitled(head + rest)
    ensures AllTitled(rest) && (head != [] ==> head[0].title != "")
  {
    assert forall i | 0 <= i < |rest| :: rest[i] == (head + rest)[|head| + i];
    if head != [] { assert (head + rest)[0] == head[0]; }
  }

  lemma ShapedHead(parts: seq<Part>)
    requires parts != [] && AllShaped(parts)
    ensures Shaped(parts[0]) && AllShaped(parts[1..])
    ensures PartsWeight(parts) == |NonBlank(parts[0].lines)| + PartsWeight(parts[1..])
  {
    hide Shaped, NonBlank;
  }

  lemma SectionsWeightHead(head: seq<Section>, rest: seq<Section>)
    requires |head| <= 1
    ensures SectionsWeight(head + rest) ==
            (if head == [] then 0 else 1 + Weight(head[0].markdown)) + SectionsWeight(rest)
  {
    hide Weight;
    if head == [] { assert head + rest == rest; } else { assert (head + rest)[1..] == rest; }
  }

  // Parts that are not read back weigh something.
  lemma {:induction false} LastWeight(ids: seq<string>, parts: seq<Part>, sections: seq<Section>)
    requires |ids| == |parts| == |sections| && AllShaped(parts)
    requires forall i | 0 <= i < |parts| :: sections[i] == StoredSection(parts[i])
    requires AllTitled(LastOfEach(ids, sections))
    ensures SectionsWeight(LastOfEach(ids, sections)) + |parts| - |LastOfEach(ids, sections)| <= PartsWeight(parts)
  {
    hide Shaped, AllShaped, StoredSection, Weight, NonBlank, SectionsWeight, PartsWeight, LastOfEach, AllTitled;
    if ids == [] {
      NothingWeighs(ids, parts, sections);
    } else {
      var head := if ids[0] in ids[1..] then [] else [sections[0]];
      var rest := LastOfEach(ids[1..], sections[1..]);
      LastHead(ids, sections);
      TitledRest(head, rest);
      ShapedHead(parts);
      LastWeight(ids[1..], parts[1..], sections[1..]);
      SectionsWeightHead(head, rest);
      StoredWeight(parts[0]);
      TitleOfStored(parts[0]);
    }
  }

  lemma NothingWeighs(ids: seq<string>, parts: seq<Part>, sections: seq<Section>)
    requires ids == [] && parts == [] && sections == []
    ensures LastOfEach(ids, sections) == [] && SectionsWeight([]) == PartsWeight([]) == 0
  {
  }

  lemma TitleOfStored(p: Part)
    ensures StoredSection(p).title == p.title
  {
  }

  // An exported consensus is imported into a space that lacks it as the same
  // consensus exactly when each body is sealed, no two section titles are
  // normalized to one, and no section is titled root.
  lemma ExportImportsBackIff(norm: string -> string, space: Space, consensusId: string, c: Consensus)
    requires Wellformed(c) && Lacks(space, consensusId)
    ensures var p := Parsed(Export(c));
            var n := |p.sections|;
            ReadConsensus(FreshSpace(norm, space, consensusId, p, n), consensusId,
                          FreshLinks(norm, space, consensusId, p, n)) == Some(c)
            <==> SealedConsensus(c) && NamesApart(norm, c.sections)
  {
    hide Parsed, Export, FreshSpace, FreshLinks, ReadConsensus, Lacks, SealedConsensus, NamesApart, RootId, LastOfEach,
         NoRepeat;
    var p := Parsed(Export(c));
    var n := |p.sections|;
    var links := FreshLinks(norm, space, consensusId, p, n);
    ExportParsesBackIff(c);
    ImportedConsensus(norm, space, consensusId, p);
    AllAreLast(links, p.sections);
    if SealedConsensus(c) && NamesApart(norm, c.sections) {
      TitlesAreTrimmed(c);
      NamesApartLinks(norm, space, consensusId, p, n);
      PartsApart(norm, consensusId, p.sections, links);
    }
    if RootId(consensusId) !in links && Consensus(p.title, p.markdown, LastOfEach(links, p.sections)) == c {
      TitlesAreText(c);
      NothingIsMerged(c, links);
      LinksApart(norm, space, consensusId, p);
    }
  }

  lemma TitlesAreTrimmed(c: Consensus)
    requires Wellformed(c)
    ensures forall i | 0 <= i < |c.sections| :: Trimmed(c.sections[i].title)
  {
    hide StripHeading, StripLinks, Decode;
  }

  lemma TitlesAreText(c: Consensus)
    requires Wellformed(c)
    ensures AllTitled(c.sections)
  {
    hide StripHeading, StripLinks, Decode;
  }

  // If the last sections of each document are those that were exported, no
  // section was merged into another.
  lemma NothingIsMerged(c: Consensus, links: seq<string>)
    requires Wellformed(c) && |links| == |Parsed(Export(c)).sections|
    requires var p := Parsed(Export(c));
             p.markdown == c.markdown && LastOfEach(links, p.sections) == c.sections
    requires AllTitled(c.sections)
    ensures |c.sections| == |Parsed(Export(c)).sections|
  {
    hide Parsed, Export, Wellformed, LastOfEach, AllShaped, StoredSection, Weight, SectionsWeight, PartsWeight;
    var parts := ParsedParts(c);
    LastWeight(links, parts, Parsed(Export(c)).sections);
  }
}
