// Importing into a consensus that the space has: exactly when the draft edits no
// document twice, so that publishing it keeps the chains of versions.
module KnowledgeImportDrafts {
  import opened Text
  import opened Wrappers
  import opened KnowledgeMarkdown
  import opened KnowledgeSessions
  import opened KnowledgeImport
  import opened KnowledgeImportRoundTrip
  import History = KnowledgeHistory

  ghost predicate HasRoot(space: Space, group: Group) {
    && DistinctDocuments(space.documents)
    && (forall i | 0 <= i < |space.documents| :: Trimmed(space.documents[i].id))
    && HasDocument(space, group.rootId)
  }

  // A child of the consensus has this title, once normalized.
  predicate HasChild(norm: string -> string, space: Space, group: Group, title: string) {
    FindChild(norm, group.isChild, space.documents, norm(title)) < |space.documents|
  }

  // Two sections meet when they are written to one document that the space has:
  // the child that both name, or the document with the id made from a title that
  // no child has.
  predicate Meet(norm: string -> string, space: Space, group: Group, a: string, b: string) {
    if HasChild(norm, space, group, a) && HasChild(norm, space, group, b) then norm(a) == norm(b)
    else if HasChild(norm, space, group, a) then
      space.documents[FindChild(norm, group.isChild, space.documents, norm(a))].id == DocId(group.consensusId, b)
    else if HasChild(norm, space, group, b) then
      space.documents[FindChild(norm, group.isChild, space.documents, norm(b))].id == DocId(group.consensusId, a)
    else Trim(a) == Trim(b) && HasDocument(space, DocId(group.consensusId, a))
  }

  predicate MeetsRoot(norm: string -> string, space: Space, group: Group, title: string) {
    if HasChild(norm, space, group, title) then
      space.documents[FindChild(norm, group.isChild, space.documents, norm(title))].id == group.rootId
    else DocId(group.consensusId, title) == group.rootId
  }

  ghost predicate SectionsApart(norm: string -> string, space: Space, group: Group, sections: seq<Section>) {
    && (forall i | 0 <= i < |sections| :: !MeetsRoot(norm, space, group, sections[i].title))
    && (forall i, j | 0 <= i < j < |sections| :: !Meet(norm, space, group, sections[i].title, sections[j].title))
  }

  // -------------------------------------------------------- the changes

  // Changes of these documents, in turn, each new exactly when the space lacks it.
  predicate ChangesOf(space: Space, changes: seq<Change>, ids: seq<string>) {
    && |changes| == |ids|
    && forall i | 0 <= i < |ids| :: changes[i].docId == ids[i] && changes[i].isNew == !HasDocument(space, ids[i])
  }

  function SectionIds(norm: string -> string, space: Space, group: Group, sections: seq<Section>): (r: seq<string>)
    ensures |r| == |sections|
  {
    seq(|sections|, i requires 0 <= i < |sections| => SectionDocId(norm, space.documents, group, sections[i].title))
  }

  lemma DocIdIsTrimmed(consensusId: string, part: string)
    ensures Trimmed(DocId(consensusId, part))
  {
    TrimIsTrimmed(part);
  }

  lemma SectionIdIsTrimmed(norm: string -> string, space: Space, group: Group, title: string)
    requires HasRoot(space, group)
    ensures Trimmed(SectionDocId(norm, space.documents, group, title))
  {
    DocIdIsTrimmed(group.consensusId, title);
    hide Trimmed, DocId, DistinctDocuments;
  }

  lemma SectionChange(norm: string -> string, space: Space, group: Group, s: Section)
    requires HasRoot(space, group)
    ensures var id := SectionDocId(norm, space.documents, group, s.title);
            var change := NormalizeChange(space, SectionInput(norm, space, group, s));
            change.Some? && change.value.docId == id && change.value.isNew == !HasDocument(space, id)
  {
    SectionIdIsTrimmed(norm, space, group, s.title);
    TrimFixed(SectionDocId(norm, space.documents, group, s.title));
    hide Trim, Trimmed, SectionDocId, HasDocument;
  }

  lemma RootChange(norm: string -> string, space: Space, group: Group, c: Consensus)
    requires HasRoot(space, group)
    ensures var changes := NormalizeChanges(space, DraftInputs(norm, space, group, c, 0));
            changes.Some? && ChangesOf(space, changes.value, [group.rootId])
  {
    History.FindDocumentSpec(space.documents, group.rootId);
    TrimFixed(group.rootId);
    hide Trim, Trimmed;
    assert DraftInputs(norm, space, group, c, 0)[..0] == [] && NormalizeChanges(space, []) == Some([]);
  }

  lemma NormalizeSnoc(space: Space, inputs: seq<ChangeInput>, input: ChangeInput, ids: seq<string>, id: string)
    requires NormalizeChanges(space, inputs).Some? && ChangesOf(space, NormalizeChanges(space, inputs).value, ids)
    requires var change := NormalizeChange(space, input);
             change.Some? && change.value.docId == id && change.value.isNew == !HasDocument(space, id)
    ensures var changes := NormalizeChanges(space, inputs + [input]);
            changes.Some? && ChangesOf(space, changes.value, ids + [id])
  {
    hide NormalizeChange, HasDocument;
    assert (inputs + [input])[..|inputs|] == inputs;
  }

  // A draft has one change for the root and one for each section.
  lemma {:induction false} DraftChanges(norm: string -> string, space: Space, group: Group, c: Consensus, n: nat)
    requires n <= |c.sections| && HasRoot(space, group)
    ensures var changes := NormalizeChanges(space, DraftInputs(norm, space, group, c, n));
            && changes.Some?
            && ChangesOf(space, changes.value, [group.rootId] + SectionIds(norm, space, group, c.sections)[..n])
    decreases n
  {
    hide NormalizeChange, NormalizeChanges, SectionDocId, SectionInput, HasRoot, ChangesOf, DraftInputs;
    var ids := SectionIds(norm, space, group, c.sections);
    if n == 0 {
      RootChange(norm, space, group, c);
      assert [group.rootId] + ids[..0] == [group.rootId];
    } else {
      DraftChanges(norm, space, group, c, n - 1);
      DraftNext(norm, space, group, c, n - 1);
      SectionChange(norm, space, group, c.sections[n - 1]);
      NormalizeSnoc(space, DraftInputs(norm, space, group, c, n - 1),
                    SectionInput(norm, space, group, c.sections[n - 1]), [group.rootId] + ids[..n - 1], ids[n - 1]);
      TakeNext(ids, n - 1);
      Assoc([group.rootId], ids[..n - 1], [ids[n - 1]]);
    }
  }

  // -------------------------------------------------- the documents edited

  ghost predicate EditedOnce(space: Space, ids: seq<string>) {
    forall i, j | 0 <= i < j < |ids| && HasDocument(space, ids[i]) :: ids[i] != ids[j]
  }

  lemma DistinctEditsIff(space: Space, changes: seq<Change>, ids: seq<string>)
    requires ChangesOf(space, changes, ids)
    ensures History.DistinctEdits(changes) <==> EditedOnce(space, ids)
  {
    hide HasDocument;
    if History.DistinctEdits(changes) {
      forall i, j | 0 <= i < j < |ids| && HasDocument(space, ids[i]) ensures ids[i] != ids[j] {
        assert changes[i].docId == ids[i] && changes[j].docId == ids[j];
      }
    }
  }

  lemma MeetIff(norm: string -> string, space: Space, group: Group, a: string, b: string)
    requires DistinctDocuments(space.documents)
    ensures var ids := (SectionDocId(norm, space.documents, group, a), SectionDocId(norm, space.documents, group, b));
            Meet(norm, space, group, a, b) <==> ids.0 == ids.1 && HasDocument(space, ids.0)
  {
    SamePart(group.consensusId, a, b);
    hide DocId, Trim, FindDocument;
    if HasChild(norm, space, group, a) {
      FoundIsMember(space.documents, FindChild(norm, group.isChild, space.documents, norm(a)));
    }
    if HasChild(norm, space, group, b) {
      FoundIsMember(space.documents, FindChild(norm, group.isChild, space.documents, norm(b)));
    }
  }

  lemma MeetingIds(norm: string -> string, space: Space, group: Group, sections: seq<Section>, ids: seq<string>,
                   i: nat, j: nat)
    requires DistinctDocuments(space.documents) && ids == SectionIds(norm, space, group, sections)
    requires i < j < |sections|
    ensures Meet(norm, space, group, sections[i].title, sections[j].title)
            <==> HasDocument(space, ids[i]) && ids[i] == ids[j]
  {
    MeetIff(norm, space, group, sections[i].title, sections[j].title);
    hide SectionDocId, HasDocument, Meet;
  }

  lemma RootIds(norm: string -> string, space: Space, group: Group, sections: seq<Section>)
    ensures var ids := SectionIds(norm, space, group, sections);
            group.rootId !in ids
            <==> forall i | 0 <= i < |sections| :: !MeetsRoot(norm, space, group, sections[i].title)
  {
    var ids := SectionIds(norm, space, group, sections);
    forall i | 0 <= i < |sections|
      ensures MeetsRoot(norm, space, group, sections[i].title) <==> ids[i] == group.rootId
    {
    }
    hide MeetsRoot;
  }

  lemma EditedOnceCons(space: Space, first: string, ids: seq<string>)
    requires HasDocument(space, first)
    ensures EditedOnce(space, [first] + ids) <==> first !in ids && EditedOnce(space, ids)
  {
    hide HasDocument;
    var all := [first] + ids;
    assert forall i | 0 < i < |all| :: all[i] == ids[i - 1];
    if EditedOnce(space, all) {
      forall i | 0 <= i < |ids| ensures ids[i] != first {
        assert all[0] != all[i + 1];
      }
      forall i, j | 0 <= i < j < |ids| && HasDocument(space, ids[i]) ensures ids[i] != ids[j] {
        assert HasDocument(space, all[i + 1]) && all[i + 1] != all[j + 1];
      }
    }
  }

  lemma EditedOnceIff(norm: string -> string, space: Space, group: Group, sections: seq<Section>)
    requires HasRoot(space, group)
    ensures EditedOnce(space, [group.rootId] + SectionIds(norm, space, group, sections))
            <==> SectionsApart(norm, space, group, sections)
  {
    var ids := SectionIds(norm, space, group, sections);
    RootIds(norm, space, group, sections);
    EditedOnceCons(space, group.rootId, ids);
    hide SectionIds, HasDocument, DistinctDocuments, MeetsRoot, Meet;
    forall i: nat, j: nat | i < j < |sections|
      ensures Meet(norm, space, group, sections[i].title, sections[j].title)
              <==> HasDocument(space, ids[i]) && ids[i] == ids[j]
    {
      MeetingIds(norm, space, group, sections, ids, i, j);
    }
  }

  // ------------------------------------------------------- the condition

  // Importing a text into a consensus that has its root drafts at most one edit of
  // each document exactly when no two sections meet and none meets the root.
  lemma DraftEditsApartIff(norm: string -> string, space: Space, group: Group, c: Consensus)
    requires HasRoot(space, group)
    ensures var changes := NormalizeChanges(space, DraftInputs(norm, space, group, c, |c.sections|));
            && changes.Some?
            && (History.DistinctEdits(changes.value) <==> SectionsApart(norm, space, group, c.sections))
  {
    hide NormalizeChanges, SectionIds, HasRoot, ChangesOf, DraftInputs, SectionsApart, EditedOnce;
    var n, ids := |c.sections|, SectionIds(norm, space, group, c.sections);
    DraftChanges(norm, space, group, c, n);
    assert ids[..n] == ids;
    EditedOnceIff(norm, space, group, c.sections);
    DistinctEditsIff(space, NormalizeChanges(space, DraftInputs(norm, space, group, c, n)).value,
                     [group.rootId] + ids);
  }

  // Publishing such a draft, whenever it goes through, keeps every document's chain
  // of versions exactly under that condition on the space it was drafted from.
  lemma ImportedDraftChainsIff(norm: string -> string, space: Space, group: Group, c: Consensus, later: Space,
                               id: string)
    requires HasRoot(space, group)
    requires History.Inv(later) && History.Chained(later) && Publish(later, id).1 == Done
    requires var at := FindSession(later.changeSessions, id);
             Some(later.changeSessions[at].changes) ==
             NormalizeChanges(space, DraftInputs(norm, space, group, c, |c.sections|))
    ensures History.Chained(Publish(later, id).0) <==> SectionsApart(norm, space, group, c.sections)
  {
    DraftEditsApartIff(norm, space, group, c);
    History.PublishChainsIff(later, id);
    hide NormalizeChanges, DraftInputs, SectionsApart, HasRoot, Publish, History.Chained, History.Inv,
         History.DistinctEdits;
  }

  // In a space whose documents have chains, an import that is drafted, reviewed and
  // published at once goes through, and keeps the chains exactly then.
  lemma ImportThroughReviewIff(norm: string -> string, space: Space, group: Group, c: Consensus, id: string)
    requires HasRoot(space, group) && History.Inv(space) && History.Chained(space)
    requires FindSession(space.changeSessions, id) == |space.changeSessions|
    ensures var inputs := DraftInputs(norm, space, group, c, |c.sections|);
            var drafted := History.Next(space, History.Create(id, inputs));
            var b := History.Next(History.Next(drafted, History.Move(id, Diff)), History.Move(id, Preview));
            && Publish(b, id).1 == Done
            && (History.Chained(Publish(b, id).0) <==> SectionsApart(norm, space, group, c.sections))
  {
    hide NormalizeChanges, DraftInputs, SectionsApart, HasRoot, Publish, FindSession, DetectConflicts, PublishChanges,
         History.Chained, History.Inv, History.Next, History.DistinctEdits;
    var inputs := DraftInputs(norm, space, group, c, |c.sections|);
    DraftEditsApartIff(norm, space, group, c);
    var changes := NormalizeChanges(space, inputs).value;
    History.DraftIsReviewed(space, id, inputs, changes);
    var s := Session(id, Preview, false, false, [], changes);
    var b := History.Last(space, s);
    History.DraftHasNoConflict(space, b, inputs);
    History.LastIsPublished(space, s);
    History.SameHistoryKeeps(space, b);
    History.SameVersions(space, b);
    History.FindNewSession(space.changeSessions, s);
    ImportedDraftChainsIff(norm, space, group, c, b, id);
  }

  // Where every section has its child and none of these is the root, that is when
  // no two titles are normalized to one.
  lemma KnownSectionsApartIff(norm: string -> string, space: Space, group: Group, sections: seq<Section>)
    requires forall i | 0 <= i < |sections| ::
        HasChild(norm, space, group, sections[i].title) && !MeetsRoot(norm, space, group, sections[i].title)
    ensures SectionsApart(norm, space, group, sections) <==> TitlesApart(norm, sections)
  {
    hide MeetsRoot, HasChild;
  }

  // Where no child has any of the titles and none of their ids is taken, nothing
  // meets, whatever the titles: the sections are drafted as new documents.
  lemma NewSectionsAreApart(norm: string -> string, space: Space, group: Group, sections: seq<Section>)
    requires HasRoot(space, group)
    requires forall i | 0 <= i < |sections| ::
        !HasDocument(space, SectionDocId(norm, space.documents, group, sections[i].title))
    ensures SectionsApart(norm, space, group, sections)
  {
    forall i | 0 <= i < |sections| ensures !MeetsRoot(norm, space, group, sections[i].title) {
      assert HasDocument(space, group.rootId);
    }
    hide SectionDocId, HasDocument, MeetsRoot;
    forall i, j | 0 <= i < j < |sections| ensures !Meet(norm, space, group, sections[i].title, sections[j].title) {
      MeetIff(norm, space, group, sections[i].title, sections[j].title);
    }
  }

  // ---------------------------------------------------------- three inputs

  const ROOT := Document("r", "T", "", 1, "", NoVersion)

  function SmallGroup(): Group {
    Group("k", "r", (doc: Document) => doc.parentId == "r")
  }

  lemma SmallSpaceHasRoot(docs: seq<Document>)
    requires docs == [ROOT] || (|docs| == 2 && docs[0] == ROOT && docs[1].id == DocId("k", "A"))
    ensures HasRoot(Space(docs, [], []), SmallGroup())
  {
    DocIdIsTrimmed("k", "A");
  }

  lemma SmallChild(norm: string -> string, child: Document, key: string)
    requires child.parentId == "r"
    ensures FindChild(norm, SmallGroup().isChild, [ROOT, child], key) == if norm(child.title) == key then 1 else 2
    ensures FindDocument([ROOT, child], child.id) < 2
  {
    assert [ROOT, child][1..] == [child] && [child][1..] == [];
  }

  // A repeated title whose document the space has is edited twice.
  lemma RepeatedTitleIsEditedTwice(norm: string -> string)
    ensures var space := Space([ROOT, Document(DocId("k", "A"), "A", "r", 2, "x", NoVersion)], [], []);
            var c := Consensus("T", "", [Section("A", "x"), Section("A", "y")]);
            var changes := NormalizeChanges(space, DraftInputs(norm, space, SmallGroup(), c, 2));
            changes.Some? && !History.DistinctEdits(changes.value)
  {
    var child := Document(DocId("k", "A"), "A", "r", 2, "x", NoVersion);
    var space := Space([ROOT, child], [], []);
    var c := Consensus("T", "", [Section("A", "x"), Section("A", "y")]);
    SmallSpaceHasRoot(space.documents);
    DraftEditsApartIff(norm, space, SmallGroup(), c);
    hide NormalizeChanges, DraftInputs, DocId, HasRoot, FindChild;
    SmallChild(norm, child, norm("A"));
    assert Meet(norm, space, SmallGroup(), c.sections[0].title, c.sections[1].title);
  }

  // A repeated title that is new is not.
  lemma RepeatedNewTitleIsNot(norm: string -> string)
    ensures var space := Space([ROOT], [], []);
            var c := Consensus("T", "", [Section("A", "x"), Section("A", "y")]);
            var changes := NormalizeChanges(space, DraftInputs(norm, space, SmallGroup(), c, 2));
            && changes.Some? && History.DistinctEdits(changes.value)
            && !TitlesApart(norm, c.sections)
  {
    var space := Space([ROOT], [], []);
    var c := Consensus("T", "", [Section("A", "x"), Section("A", "y")]);
    SmallSpaceHasRoot(space.documents);
    DraftEditsApartIff(norm, space, SmallGroup(), c);
    hide NormalizeChanges, DraftInputs, HasRoot;
    assert [ROOT][1..] == [];
    NewSectionsAreApart(norm, space, SmallGroup(), c.sections);
    assert norm(c.sections[0].title) == norm(c.sections[1].title);
  }

  // Two titles meet when one is a child's and the other made the child's id.
  lemma RenamedChildIsEditedTwice(norm: string -> string)
    ensures var space := Space([ROOT, Document(DocId("k", "A"), "B", "r", 2, "x", NoVersion)], [], []);
            var c := Consensus("T", "", [Section("A", "x"), Section("B", "y")]);
            var changes := NormalizeChanges(space, DraftInputs(norm, space, SmallGroup(), c, 2));
            changes.Some? && !History.DistinctEdits(changes.value)
  {
    var child := Document(DocId("k", "A"), "B", "r", 2, "x", NoVersion);
    var space := Space([ROOT, child], [], []);
    var c := Consensus("T", "", [Section("A", "x"), Section("B", "y")]);
    SmallSpaceHasRoot(space.documents);
    DraftEditsApartIff(norm, space, SmallGroup(), c);
    hide NormalizeChanges, DraftInputs, DocId, HasRoot, FindChild;
    SmallChild(norm, child, norm("A"));
    SmallChild(norm, child, norm("B"));
    assert Meet(norm, space, SmallGroup(), c.sections[0].title, c.sections[1].title);
  }
}
