// What every interleaving of drafts, transitions, publishes and imports on one
// knowledge space keeps of its documents' version histories.
module KnowledgeHistory {
  import opened Text
  import opened Wrappers
  import opened KnowledgeSessions

  datatype Event =
    | Create(id: string, inputs: seq<ChangeInput>)
    | Move(id: string, next: Status)
    | PublishSession(id: string)
    | ImportNew(id: string, docs: seq<ImportedDocument>)

  function Next(space: Space, e: Event): Space {
    match e
    case Create(id, inputs) => CreateSession(space, id, inputs).0
    case Move(id, next) => Transition(space, id, next).0
    case PublishSession(id) => Publish(space, id).0
    case ImportNew(id, docs) => Import(space, id, docs)
  }

  function Run(space: Space, es: seq<Event>): Space {
    if es == [] then space else Next(Run(space, es[..|es| - 1]), es[|es| - 1])
  }

  const EMPTY_SPACE := Space([], [], [])

  // ---------------------------------------------------------- the invariant

  // Versions numbered from 1, each named by its document, text and number.
  ghost predicate Numbered(vs: seq<Version>, docId: string) {
    forall i | 0 <= i < |vs| ::
      vs[i].docId == docId && vs[i].versionNumber == i + 1 && vs[i].id == Ver(docId, vs[i].sourceMarkdown, i + 1)
  }

  // The document shows its latest version.
  ghost predicate DocumentInv(space: Space, docId: string) {
    var vs := VersionsOf(space.versions, docId);
    && Numbered(vs, docId)
    && (HasDocument(space, docId) <==> vs != [])
    && (HasDocument(space, docId) ==>
          && DocumentOf(space, docId).currentVersionId == vs[|vs| - 1].id
          && DocumentOf(space, docId).sourceMarkdown == vs[|vs| - 1].sourceMarkdown)
  }

  ghost predicate Inv(space: Space) {
    forall docId: string :: DocumentInv(space, docId)
  }

  // ------------------------------------------------------ one new version

  lemma {:induction false} FindDocumentSpec(documents: seq<Document>, id: string)
    ensures var i := FindDocument(documents, id);
            (i < |documents| ==> documents[i].id == id) && forall j | 0 <= j < i :: documents[j].id != id
  {
    if documents != [] && documents[0].id != id { FindDocumentSpec(documents[1..], id); }
  }

  lemma {:induction false} FindDocumentSame(a: seq<Document>, b: seq<Document>, id: string)
    requires |a| == |b| && forall i | 0 <= i < |a| :: a[i].id == b[i].id
    ensures FindDocument(a, id) == FindDocument(b, id)
  {
    if a != [] { FindDocumentSame(a[1..], b[1..], id); }
  }

  lemma {:induction false} FindDocumentSnoc(documents: seq<Document>, doc: Document, id: string)
    ensures FindDocument(documents + [doc], id) ==
            if FindDocument(documents, id) < |documents| then FindDocument(documents, id)
            else if doc.id == id then |documents| else |documents| + 1
  {
    if documents == [] {
      assert documents + [doc] == [doc];
    } else {
      assert (documents + [doc])[1..] == documents[1..] + [doc];
      FindDocumentSnoc(documents[1..], doc, id);
    }
  }

  lemma VersionsSnoc(versions: seq<Version>, v: Version, docId: string)
    ensures VersionsOf(versions + [v], docId) == VersionsOf(versions, docId) + (if v.docId == docId then [v] else [])
  {
    assert (versions + [v])[..|versions|] == versions;
  }

  // The space with one more version of a document and the document showing it.
  ghost predicate Extends(a: Space, b: Space, docId: string, markdown: string, base: VersionId) {
    && b.changeSessions == a.changeSessions
    && b.versions == a.versions + [NewVersion(a, docId, markdown, base)]
    && (forall d: string :: d != docId ==>
          HasDocument(b, d) == HasDocument(a, d) && (HasDocument(a, d) ==> DocumentOf(b, d) == DocumentOf(a, d)))
    && HasDocument(b, docId)
    && DocumentOf(b, docId).currentVersionId == NewVersion(a, docId, markdown, base).id
    && DocumentOf(b, docId).sourceMarkdown == markdown
  }

  lemma ReplacedDocument(a: seq<Document>, at: nat, doc: Document, d: string)
    requires at < |a| && a[at].id == doc.id && FindDocument(a, doc.id) == at
    ensures FindDocument(a[at := doc], d) == FindDocument(a, d)
    ensures d != doc.id && FindDocument(a, d) < |a| ==> a[at := doc][FindDocument(a, d)] == a[FindDocument(a, d)]
  {
    FindDocumentSame(a, a[at := doc], d);
    FindDocumentSpec(a, d);
  }

  lemma UpsertExtends(a: Space, id: string, title: string, parentId: string, level: int, markdown: string)
    ensures Extends(a, UpsertDocument(a, id, title, parentId, level, markdown), id, markdown,
                    if HasDocument(a, id) then DocumentOf(a, id).currentVersionId else NoVersion)
  {
    var b := UpsertDocument(a, id, title, parentId, level, markdown);
    var at := FindDocument(a.documents, id);
    FindDocumentSpec(a.documents, id);
    forall d: string ensures
      && (d != id ==>
            && HasDocument(b, d) == HasDocument(a, d)
            && (HasDocument(a, d) ==> DocumentOf(b, d) == DocumentOf(a, d)))
      && (d == id ==> FindDocument(b.documents, d) == at)
    {
      if at < |a.documents| {
        ReplacedDocument(a.documents, at, b.documents[at], d);
      } else {
        FindDocumentSnoc(a.documents, b.documents[at], d);
      }
    }
  }

  lemma PublishExtends(a: Space, change: Change)
    requires change.isNew || HasDocument(a, change.docId)
    ensures Extends(a, PublishChange(a, change), change.docId, change.proposedMarkdown,
                    if !change.isNew && change.baseVersionId != NoVersion then change.baseVersionId
                    else if HasDocument(a, change.docId) then DocumentOf(a, change.docId).currentVersionId
                        else NoVersion)
  {
    if change.isNew {
      UpsertExtends(a, change.docId, change.title, change.parentId, change.level, change.proposedMarkdown);
    } else {
      var b := PublishChange(a, change);
      var at := FindDocument(a.documents, change.docId);
      FindDocumentSpec(a.documents, change.docId);
      forall d: string ensures
        && (d != change.docId ==>
            HasDocument(b, d) == HasDocument(a, d) && (HasDocument(a, d) ==> DocumentOf(b, d) == DocumentOf(a, d)))
        && FindDocument(b.documents, d) == FindDocument(a.documents, d)
      {
        ReplacedDocument(a.documents, at, b.documents[at], d);
      }
    }
  }

  lemma ExtendKeeps(a: Space, b: Space, docId: string, markdown: string, base: VersionId)
    requires Inv(a) && Extends(a, b, docId, markdown, base)
    ensures Inv(b)
  {
    hide HasDocument, DocumentOf, VersionsOf;
    var v := NewVersion(a, docId, markdown, base);
    forall d: string ensures DocumentInv(b, d) {
      assert DocumentInv(a, d);
      VersionsSnoc(a.versions, v, d);
      if d != docId { assert VersionsOf(a.versions, d) + [] == VersionsOf(a.versions, d); }
    }
  }

  lemma SameHistoryKeeps(a: Space, b: Space)
    requires Inv(a) && a.documents == b.documents && a.versions == b.versions
    ensures Inv(b)
  {
    forall d: string ensures DocumentInv(b, d) { assert DocumentInv(a, d); }
  }

  // ----------------------------------------------------- how a space evolves

  // What no step takes back: documents stay, versions and sessions are only
  // added, a session's changes are fixed, and a published session is frozen.
  ghost predicate Evolves(a: Space, b: Space) {
    && a.versions <= b.versions
    && (forall d: string :: HasDocument(a, d) ==> HasDocument(b, d))
    && |a.changeSessions| <= |b.changeSessions|
    && (forall i | 0 <= i < |a.changeSessions| ::
          && b.changeSessions[i].id == a.changeSessions[i].id
          && b.changeSessions[i].changes == a.changeSessions[i].changes
          && (Frozen(a.changeSessions[i]) ==> b.changeSessions[i] == a.changeSessions[i]))
  }

  predicate Frozen(s: Session) {
    s.immutable || s.status == Published
  }

  lemma EvolvesTransitive(a: Space, b: Space, c: Space)
    requires Evolves(a, b) && Evolves(b, c)
    ensures Evolves(a, c)
  {
    hide HasDocument;
  }

  lemma ExtendEvolves(a: Space, b: Space, docId: string, markdown: string, base: VersionId)
    requires Extends(a, b, docId, markdown, base)
    ensures Evolves(a, b)
  {
    hide HasDocument, DocumentOf;
  }

  lemma PublishChangeStep(a: Space, change: Change)
    requires Inv(a)
    ensures Inv(PublishChange(a, change)) && Evolves(a, PublishChange(a, change))
  {
    if change.isNew || HasDocument(a, change.docId) {
      PublishExtends(a, change);
      hide PublishChange, Inv;
      var base := if !change.isNew && change.baseVersionId != NoVersion then change.baseVersionId
                  else if HasDocument(a, change.docId) then DocumentOf(a, change.docId).currentVersionId else NoVersion;
      ExtendKeeps(a, PublishChange(a, change), change.docId, change.proposedMarkdown, base);
      ExtendEvolves(a, PublishChange(a, change), change.docId, change.proposedMarkdown, base);
    }
  }

  lemma {:induction false} PublishChangesStep(a: Space, changes: seq<Change>)
    requires Inv(a)
    ensures Inv(PublishChanges(a, changes)) && Evolves(a, PublishChanges(a, changes))
    decreases |changes|
  {
    if changes != [] {
      hide Inv, PublishChange, Evolves;
      var init := changes[..|changes| - 1];
      PublishChangesStep(a, init);
      PublishChangeStep(PublishChanges(a, init), changes[|changes| - 1]);
      EvolvesTransitive(a, PublishChanges(a, init), PublishChanges(a, changes));
    }
  }

  lemma {:induction false} ImportStep(a: Space, docs: seq<ImportedDocument>)
    requires Inv(a)
    ensures Inv(ImportDocuments(a, docs)) && Evolves(a, ImportDocuments(a, docs))
    decreases |docs|
  {
    if docs != [] {
      hide Inv, UpsertDocument, Evolves;
      var init, d := docs[..|docs| - 1], docs[|docs| - 1];
      ImportStep(a, init);
      var m, b := ImportDocuments(a, init), ImportDocuments(a, docs);
      var base := if HasDocument(m, d.id) then DocumentOf(m, d.id).currentVersionId else NoVersion;
      UpsertExtends(m, d.id, d.title, d.parentId, d.level, d.markdown);
      ExtendKeeps(m, b, d.id, d.markdown, base);
      ExtendEvolves(m, b, d.id, d.markdown, base);
      EvolvesTransitive(a, m, b);
    }
  }

  // A change of one session that leaves everything else alone.
  lemma SessionStep(a: Space, at: nat, s: Session)
    requires at < |a.changeSessions| && !Frozen(a.changeSessions[at])
    requires s.id == a.changeSessions[at].id && s.changes == a.changeSessions[at].changes
    ensures Evolves(a, a.(changeSessions := a.changeSessions[at := s]))
  {
    hide HasDocument;
    forall d: string ensures HasDocument(a, d) == HasDocument(a.(changeSessions := a.changeSessions[at := s]), d) {
      SameDocuments(a, a.(changeSessions := a.changeSessions[at := s]), d);
    }
  }

  lemma SameDocuments(a: Space, b: Space, d: string)
    requires a.documents == b.documents
    ensures HasDocument(a, d) == HasDocument(b, d) && (HasDocument(a, d) ==> DocumentOf(a, d) == DocumentOf(b, d))
  {
  }

  lemma NewSessionStep(a: Space, s: Session)
    ensures Evolves(a, a.(changeSessions := a.changeSessions + [s]))
  {
    hide HasDocument;
    forall d: string ensures HasDocument(a, d) == HasDocument(a.(changeSessions := a.changeSessions + [s]), d) {
      SameDocuments(a, a.(changeSessions := a.changeSessions + [s]), d);
    }
  }

  // Every step keeps the version histories and takes nothing back.
  lemma NextStep(a: Space, e: Event)
    requires Inv(a)
    ensures Inv(Next(a, e)) && Evolves(a, Next(a, e))
  {
    var b := Next(a, e);
    hide Inv, Evolves, PublishChanges, DetectConflicts, ImportDocuments, NormalizeChanges;
    StaysPut(a);
    match e
    case Create(id, inputs) =>
      if b != a { NewSessionStep(a, b.changeSessions[|a.changeSessions|]); SameHistoryKeeps(a, b); }
    case Move(id, next) =>
      if b != a {
        var at := FindSession(a.changeSessions, id);
        SessionStep(a, at, Moved(a.changeSessions[at], next));
        SameHistoryKeeps(a, b);
      }
    case PublishSession(id) =>
      if b != a { PublishStep(a, id); }
    case ImportNew(id, docs) =>
      var m := ImportDocuments(a, docs);
      ImportStep(a, docs);
      NewSessionStep(m, Session(id, Published, true, false, [], []));
      SameHistoryKeeps(m, b);
      EvolvesTransitive(a, m, b);
  }

  lemma StaysPut(a: Space)
    ensures Evolves(a, a)
  {
  }

  lemma PublishStep(a: Space, id: string)
    requires Inv(a)
    ensures Inv(Publish(a, id).0) && Evolves(a, Publish(a, id).0)
  {
    var b, outcome := Publish(a, id).0, Publish(a, id).1;
    var at := FindSession(a.changeSessions, id);
    hide Inv, Evolves, PublishChanges, DetectConflicts;
    StaysPut(a);
    if outcome.Conflicted? {
      SessionStep(a, at, b.changeSessions[at]);
      SameHistoryKeeps(a, b);
    } else if outcome.Done? {
      var m := PublishChanges(a, a.changeSessions[at].changes);
      PublishChangesStep(a, a.changeSessions[at].changes);
      PublishKeepsSessions(a, a.changeSessions[at].changes);
      SessionStep(m, at, b.changeSessions[at]);
      SameHistoryKeeps(m, b);
      EvolvesTransitive(a, m, b);
    }
  }

  lemma {:induction false} RunStep(a: Space, es: seq<Event>)
    requires Inv(a)
    ensures Inv(Run(a, es)) && Evolves(a, Run(a, es))
    decreases |es|
  {
    hide Inv, Evolves, Next;
    if es == [] {
      StaysPut(a);
    } else {
      var init := es[..|es| - 1];
      RunStep(a, init);
      NextStep(Run(a, init), es[|es| - 1]);
      EvolvesTransitive(a, Run(a, init), Run(a, es));
    }
  }

  lemma EmptyInv()
    ensures Inv(EMPTY_SPACE)
  {
    forall d: string ensures DocumentInv(EMPTY_SPACE, d) {}
  }

  // ------------------------------------------------------------ version ids

  lemma {:induction false} VersionsOfPrefix(x: seq<Version>, y: seq<Version>, docId: string)
    requires x <= y
    ensures VersionsOf(x, docId) <= VersionsOf(y, docId)
    decreases |y|
  {
    if |x| == |y| {
      assert x == y;
    } else {
      VersionsOfPrefix(x, y[..|y| - 1], docId);
    }
  }

  lemma VersionIdAt(space: Space, i: nat)
    requires Inv(space) && i < |space.versions|
    ensures var v := space.versions[i];
            v.id == Ver(v.docId, v.sourceMarkdown, |VersionsOf(space.versions[..i], v.docId)| + 1)
  {
    var vs, d := space.versions, space.versions[i].docId;
    assert DocumentInv(space, d);
    assert vs[..i + 1] == vs[..i] + [vs[i]];
    VersionsSnoc(vs[..i], vs[i], d);
    VersionsOfPrefix(vs[..i + 1], vs, d);
    var n := |VersionsOf(vs[..i], d)|;
    assert VersionsOf(vs[..i + 1], d)[n] == vs[i];
    assert VersionsOf(vs, d)[n] == vs[i];
  }

  // No version id is ever used twice, even when a text comes back.
  lemma VersionIdsNeverRecur(es: seq<Event>, i: nat, j: nat)
    requires i < j < |Run(EMPTY_SPACE, es).versions|
    ensures Run(EMPTY_SPACE, es).versions[i].id != Run(EMPTY_SPACE, es).versions[j].id
  {
    EmptyInv();
    RunStep(EMPTY_SPACE, es);
    hide Inv, Run, Evolves;
    var vs := Run(EMPTY_SPACE, es).versions;
    VersionIdAt(Run(EMPTY_SPACE, es), i);
    VersionIdAt(Run(EMPTY_SPACE, es), j);
    if vs[i].docId == vs[j].docId {
      assert vs[..i + 1] == vs[..i] + [vs[i]];
      VersionsSnoc(vs[..i], vs[i], vs[i].docId);
      VersionsOfPrefix(vs[..i + 1], vs[..j], vs[i].docId);
    }
  }

  // -------------------------------------------------------------- the chain

  // Each version's base is the version just before it.
  ghost predicate BasedOnPrevious(vs: seq<Version>, i: nat)
    requires i < |vs|
  {
    vs[i].baseVersionId == if i == 0 then NoVersion else vs[i - 1].id
  }

  ghost predicate Linked(vs: seq<Version>) {
    forall i: nat | i < |vs| :: BasedOnPrevious(vs, i)
  }

  ghost predicate Chained(space: Space) {
    forall docId: string :: Linked(VersionsOf(space.versions, docId))
  }

  // No two edits of existing documents name the same one.
  ghost predicate DistinctEdits(changes: seq<Change>) {
    forall i, j | 0 <= i < j < |changes| && !changes[i].isNew && !changes[j].isNew ::
        changes[i].docId != changes[j].docId
  }

  // The version that a new version of the document follows.
  function CurrentVersion(space: Space, docId: string): VersionId {
    if HasDocument(space, docId) then DocumentOf(space, docId).currentVersionId else NoVersion
  }

  lemma ExtendChains(a: Space, b: Space, docId: string, markdown: string, base: VersionId)
    requires Inv(a) && Chained(a) && Extends(a, b, docId, markdown, base) && base == CurrentVersion(a, docId)
    ensures Chained(b)
  {
    hide VersionsOf, HasDocument, DocumentOf;
    forall d: string ensures Linked(VersionsOf(b.versions, d)) {
      assert DocumentInv(a, d) && Linked(VersionsOf(a.versions, d));
      VersionsSnoc(a.versions, NewVersion(a, docId, markdown, base), d);
      if d == docId {
        LinkedSnoc(VersionsOf(a.versions, d), NewVersion(a, docId, markdown, base));
      } else {
        assert VersionsOf(a.versions, d) + [] == VersionsOf(a.versions, d);
      }
    }
  }

  lemma LinkedSnoc(vs: seq<Version>, v: Version)
    requires Linked(vs)
    requires v.baseVersionId == if |vs| == 0 then NoVersion else vs[|vs| - 1].id
    ensures Linked(vs + [v])
  {
    var w := vs + [v];
    forall i: nat | i < |w| ensures BasedOnPrevious(w, i) {
      if i < |vs| { assert BasedOnPrevious(vs, i); }
    }
  }

  lemma {:induction false} NoConflictAt(space: Space, changes: seq<Change>, i: nat)
    requires DetectConflicts(space, changes) == [] && i < |changes|
    ensures ConflictOf(space, changes[i]) == []
    decreases |changes|
  {
    hide ConflictOf;
    if i < |changes| - 1 { NoConflictAt(space, changes[..|changes| - 1], i); }
  }

  lemma {:induction false} ConflictAt(space: Space, changes: seq<Change>, i: nat)
    requires i < |changes| && ConflictOf(space, changes[i]) != []
    ensures DetectConflicts(space, changes) != []
    decreases |changes|
  {
    hide ConflictOf;
    if i < |changes| - 1 { ConflictAt(space, changes[..|changes| - 1], i); }
  }

  // Changes to other documents leave this one alone.
  lemma {:induction false} Untouched(a: Space, changes: seq<Change>, docId: string)
    requires Inv(a) && forall c | c in changes :: c.docId != docId
    ensures var b := PublishChanges(a, changes);
            HasDocument(b, docId) == HasDocument(a, docId) && CurrentVersion(b, docId) == CurrentVersion(a, docId)
    decreases |changes|
  {
    if changes != [] {
      var init, c := changes[..|changes| - 1], changes[|changes| - 1];
      assert c in changes;
      Untouched(a, init, docId);
      var m := PublishChanges(a, init);
      if c.isNew || HasDocument(m, c.docId) { PublishExtends(m, c); }
    }
  }

  // Publishing a change onto its document's current version.
  lemma PublishChainsNext(m: Space, c: Change)
    requires Inv(m) && Chained(m)
    requires !c.isNew && HasDocument(m, c.docId) ==> DocumentOf(m, c.docId).currentVersionId == c.baseVersionId
    ensures Chained(PublishChange(m, c))
  {
    hide Inv, Chained, Extends;
    if c.isNew || HasDocument(m, c.docId) {
      PublishExtends(m, c);
      hide PublishChange;
      ExtendChains(m, PublishChange(m, c), c.docId, c.proposedMarkdown, CurrentVersion(m, c.docId));
    }
  }

  // An edit whose document no change before it names still has its base.
  lemma BaseIsCurrent(a: Space, changes: seq<Change>, n: nat)
    requires Inv(a) && DetectConflicts(a, changes) == [] && DistinctEdits(changes) && n < |changes|
    requires !changes[n].isNew
    ensures var m, c := PublishChanges(a, changes[..n]), changes[n];
            HasDocument(m, c.docId) ==> DocumentOf(m, c.docId).currentVersionId == c.baseVersionId
  {
    hide Inv, DetectConflicts, PublishChanges, HasDocument, DocumentOf;
    var init, c := changes[..n], changes[n];
    NoConflictAt(a, changes, n);
    forall x | x in init ensures x.docId != c.docId {
      var i :| 0 <= i < n && init[i] == x;
      assert changes[i] == x;
      NoConflictAt(a, changes, i);
    }
    Untouched(a, init, c.docId);
  }

  lemma {:induction false} PublishChains(a: Space, changes: seq<Change>)
    requires Inv(a) && Chained(a) && DetectConflicts(a, changes) == [] && DistinctEdits(changes)
    ensures Chained(PublishChanges(a, changes))
    decreases |changes|
  {
    hide Inv, Chained, ConflictOf, PublishChange, HasDocument, DocumentOf, Evolves;
    if changes != [] {
      var n := |changes| - 1;
      var init := changes[..n];
      assert DistinctEdits(init);
      PublishChains(a, init);
      PublishChangesStep(a, init);
      if !changes[n].isNew { BaseIsCurrent(a, changes, n); }
      PublishChainsNext(PublishChanges(a, init), changes[n]);
    }
  }

  lemma {:induction false} PublishPrefix(a: Space, changes: seq<Change>, k: nat)
    requires Inv(a) && k <= |changes|
    ensures Evolves(PublishChanges(a, changes[..k]), PublishChanges(a, changes))
    decreases |changes|
  {
    hide Inv, Evolves, PublishChange;
    if k == |changes| {
      assert changes[..k] == changes;
      StaysPut(PublishChanges(a, changes));
    } else {
      var init := changes[..|changes| - 1];
      assert init[..k] == changes[..k];
      PublishPrefix(a, init, k);
      PublishChangesStep(a, init);
      PublishChangeStep(PublishChanges(a, init), changes[|changes| - 1]);
      EvolvesTransitive(PublishChanges(a, changes[..k]), PublishChanges(a, init), PublishChanges(a, changes));
    }
  }

  // Publishing a change adds a version of its document.
  lemma PublishGrows(a: Space, changes: seq<Change>, i: nat)
    requires Inv(a) && i < |changes| && (changes[i].isNew || HasDocument(a, changes[i].docId))
    ensures var b := PublishChanges(a, changes);
            && |VersionsOf(b.versions, changes[i].docId)| > |VersionsOf(a.versions, changes[i].docId)|
            && HasDocument(b, changes[i].docId)
  {
    var d := changes[i].docId;
    var m := PublishChanges(a, changes[..i]);
    assert changes[..i + 1][..i] == changes[..i];
    PublishChangesStep(a, changes[..i]);
    PublishExtends(m, changes[i]);
    PublishPrefix(a, changes, i + 1);
    VersionsOfPrefix(a.versions, m.versions, d);
    var next := PublishChange(m, changes[i]);
    VersionsSnoc(m.versions, next.versions[|m.versions|], d);
    VersionsOfPrefix(next.versions, PublishChanges(a, changes).versions, d);
  }

  // A version that is not based on the one before it stays in the history.
  lemma BreakStays(a: seq<Version>, b: seq<Version>, n: nat)
    requires a <= b && 0 < n < |a| && !BasedOnPrevious(a, n)
    ensures !Linked(b)
  {
    assert b[n] == a[n] && b[n - 1] == a[n - 1];
    assert !BasedOnPrevious(b, n);
  }

  // The edit j of a document that the changes before it have written again has a
  // base that is no longer current.
  lemma LateEdit(a: Space, m: Space, c: Change)
    requires Inv(a) && Inv(m) && !c.isNew && ConflictOf(a, c) == []
    requires HasDocument(m, c.docId) && VersionsOf(a.versions, c.docId) <= VersionsOf(m.versions, c.docId)
    requires |VersionsOf(m.versions, c.docId)| > |VersionsOf(a.versions, c.docId)|
    ensures var vs := VersionsOf(PublishChange(m, c).versions, c.docId);
            |vs| > 1 && !BasedOnPrevious(vs, |vs| - 1)
  {
    hide VersionsOf, DocumentOf, HasDocument, PublishChange;
    var d := c.docId;
    assert DocumentInv(a, d) && DocumentInv(m, d);
    PublishExtends(m, c);
    hide Inv;
    var next := PublishChange(m, c);
    VersionsSnoc(m.versions, next.versions[|m.versions|], d);
  }

  // The second of two edits of one document is published with a base that is
  // no longer current.
  lemma DuplicateBreaks(a: Space, changes: seq<Change>, i: nat, j: nat)
    requires Inv(a) && DetectConflicts(a, changes) == [] && i < j < |changes|
    requires !changes[i].isNew && !changes[j].isNew && changes[i].docId == changes[j].docId
    ensures !Chained(PublishChanges(a, changes))
  {
    hide Inv, VersionsOf, PublishChange, PublishChanges, HasDocument, DocumentOf, BasedOnPrevious, Linked, Evolves,
         DetectConflicts;
    var c, d := changes[j], changes[j].docId;
    var m, b := PublishChanges(a, changes[..j]), PublishChanges(a, changes);
    NoConflictAt(a, changes, j);
    PublishChangesStep(a, changes[..j]);
    ConflictFree(a, c);
    PublishGrows(a, changes[..j], i);
    VersionsEvolve(a, m, d);
    LateEdit(a, m, c);
    PublishNext(a, changes, j);
    PublishPrefix(a, changes, j + 1);
    var next := PublishChange(m, c);
    VersionsEvolve(next, b, d);
    BreakStays(VersionsOf(next.versions, d), VersionsOf(b.versions, d), |VersionsOf(next.versions, d)| - 1);
  }

  lemma ConflictFree(a: Space, c: Change)
    requires !c.isNew && ConflictOf(a, c) == []
    ensures HasDocument(a, c.docId)
  {
  }

  lemma PublishNext(a: Space, changes: seq<Change>, j: nat)
    requires j < |changes|
    ensures PublishChanges(a, changes[..j + 1]) == PublishChange(PublishChanges(a, changes[..j]), changes[j])
  {
    hide PublishChange;
    assert changes[..j + 1][..j] == changes[..j];
  }

  lemma VersionsEvolve(a: Space, b: Space, d: string)
    requires Evolves(a, b)
    ensures VersionsOf(a.versions, d) <= VersionsOf(b.versions, d)
  {
    hide HasDocument;
    VersionsOfPrefix(a.versions, b.versions, d);
  }

  // A publish that goes through keeps every document's chain of versions
  // exactly when no two of its edits name the same document.
  lemma PublishChainsIff(a: Space, id: string)
    requires Inv(a) && Chained(a) && Publish(a, id).1 == Done
    ensures Chained(Publish(a, id).0) <==> DistinctEdits(a.changeSessions[FindSession(a.changeSessions, id)].changes)
  {
    var changes := a.changeSessions[FindSession(a.changeSessions, id)].changes;
    if DistinctEdits(changes) {
      PublishChains(a, changes);
    } else {
      var i, j :| 0 <= i < j < |changes| && !changes[i].isNew && !changes[j].isNew &&
          changes[i].docId == changes[j].docId;
      DuplicateBreaks(a, changes, i, j);
    }
  }

  lemma {:induction false} FindNewSession(sessions: seq<Session>, s: Session)
    requires FindSession(sessions, s.id) == |sessions|
    ensures FindSession(sessions + [s], s.id) == |sessions|
  {
    if sessions != [] {
      assert (sessions + [s])[1..] == sessions[1..] + [s];
      FindNewSession(sessions[1..], s);
    }
  }

  lemma NormalizeTwice(a: Space, input: ChangeInput)
    requires NormalizeChange(a, input).Some?
    ensures var c := NormalizeChange(a, input).value; NormalizeChanges(a, [input, input]) == Some([c, c])
  {
    hide NormalizeChange;
    var one, two := [input], [input, input];
    assert two[..|two| - 1] == one && one[..|one| - 1] == [];
    var c := NormalizeChange(a, input).value;
    assert NormalizeChanges(a, []) == Some([]) && [] + [c] == [c] && [c] + [c] == [c, c];
    assert NormalizeChanges(a, one) == Some([c]);
  }

  lemma ConflictTwice(a: Space, c: Change)
    requires ConflictOf(a, c) == []
    ensures DetectConflicts(a, [c, c]) == []
  {
    hide ConflictOf;
    var one, two := [c], [c, c];
    assert two[..|two| - 1] == one && one[..|one| - 1] == [];
    assert DetectConflicts(a, []) == [];
    assert DetectConflicts(a, one) == [];
  }

  function Last(space: Space, s: Session): Space {
    space.(changeSessions := space.changeSessions + [s])
  }

  lemma MovesLast(a: Space, s: Session, next: Status)
    requires FindSession(a.changeSessions, s.id) == |a.changeSessions|
    requires !s.immutable && s.status != Published && Allowed(s.status, next) && !s.conflict && s.conflictDetails == []
    ensures Next(Last(a, s), Move(s.id, next)) == Last(a, s.(status := next))
  {
    hide FindSession, Allowed;
    FindNewSession(a.changeSessions, s);
    assert Last(a, s).changeSessions[|a.changeSessions| := s.(status := next)] ==
        a.changeSessions + [s.(status := next)];
  }

  // A draft with these changes goes through review to the preview.
  lemma DraftIsReviewed(a: Space, id: string, inputs: seq<ChangeInput>, changes: seq<Change>)
    requires inputs != [] && NormalizeChanges(a, inputs) == Some(changes)
    requires FindSession(a.changeSessions, id) == |a.changeSessions|
    ensures Next(Next(Next(a, Create(id, inputs)), Move(id, Diff)), Move(id, Preview)) ==
            Last(a, Session(id, Preview, false, false, [], changes))
  {
    hide FindSession, NormalizeChanges, Transition, Last;
    var s := Session(id, Draft, false, false, [], changes);
    assert Next(a, Create(id, inputs)) == Last(a, s) by { CreatesLast(a, id, inputs, changes); }
    MovesLast(a, s, Diff);
    MovesLast(a, s.(status := Diff), Preview);
  }

  lemma CreatesLast(a: Space, id: string, inputs: seq<ChangeInput>, changes: seq<Change>)
    requires inputs != [] && NormalizeChanges(a, inputs) == Some(changes)
    ensures Next(a, Create(id, inputs)) == Last(a, Session(id, Draft, false, false, [], changes))
  {
    hide NormalizeChanges;
  }

  lemma LastIsPublished(a: Space, s: Session)
    requires FindSession(a.changeSessions, s.id) == |a.changeSessions|
    requires s.status == Preview && !s.immutable && DetectConflicts(Last(a, s), s.changes) == []
    ensures Publish(Last(a, s), s.id).1 == Done
    ensures Publish(Last(a, s), s.id).0.versions == PublishChanges(Last(a, s), s.changes).versions
  {
    hide FindSession, DetectConflicts, PublishChanges;
    FindNewSession(a.changeSessions, s);
  }

  lemma NormalizedIsCurrent(a: Space, b: Space, input: ChangeInput)
    requires b.documents == a.documents && NormalizeChange(a, input).Some?
    ensures ConflictOf(b, NormalizeChange(a, input).value) == []
  {
    hide Trim;
    SameDocuments(a, b, Trim(input.docId));
  }

  // A draft has no conflict with the documents it was made from.
  lemma {:induction false} DraftHasNoConflict(a: Space, b: Space, inputs: seq<ChangeInput>)
    requires b.documents == a.documents && NormalizeChanges(a, inputs).Some?
    ensures DetectConflicts(b, NormalizeChanges(a, inputs).value) == []
    decreases |inputs|
  {
    hide NormalizeChange, ConflictOf;
    if inputs != [] {
      var init, input := inputs[..|inputs| - 1], inputs[|inputs| - 1];
      DraftHasNoConflict(a, b, init);
      NormalizedIsCurrent(a, b, input);
      var before, change := NormalizeChanges(a, init).value, NormalizeChange(a, input).value;
      assert (before + [change])[..|before|] == before;
    }
  }

  lemma SameVersions(a: Space, b: Space)
    requires a.versions == b.versions
    ensures Chained(a) == Chained(b)
  {
    hide Linked;
  }

  lemma InputIsKnown(a: Space, input: ChangeInput)
    requires HasDocument(a, Trim(input.docId))
    ensures var c := NormalizeChange(a, input);
            c.Some? && !c.value.isNew && forall b: Space | b.documents == a.documents :: ConflictOf(b, c.value) == []
  {
    hide Trim;
  }

  // The breaking case is one the code lets through: a draft that names an
  // existing document twice is accepted, reviewed and published.
  lemma DuplicateEditsPublished(a: Space, id: string, input: ChangeInput)
    requires Inv(a) && HasDocument(a, Trim(input.docId)) && FindSession(a.changeSessions, id) == |a.changeSessions|
    ensures var b := Next(Next(Next(a, Create(id, [input, input])), Move(id, Diff)), Move(id, Preview));
            Publish(b, id).1 == Done && !Chained(Publish(b, id).0)
  {
    hide NormalizeChange, NormalizeChanges, Trim, DetectConflicts, PublishChanges, Inv, Chained, Next, Publish,
         FindSession, ConflictOf;
    InputIsKnown(a, input);
    var c := NormalizeChange(a, input).value;
    NormalizeTwice(a, input);
    DraftIsReviewed(a, id, [input, input], [c, c]);
    var s := Session(id, Preview, false, false, [], [c, c]);
    var b := Last(a, s);
    SameHistoryKeeps(a, b);
    ConflictTwice(b, c);
    LastIsPublished(a, s);
    DuplicateBreaks(b, [c, c], 0, 1);
    SameVersions(Publish(b, id).0, PublishChanges(b, [c, c]));
  }

  lemma {:induction false} ImportChains(a: Space, docs: seq<ImportedDocument>)
    requires Inv(a) && Chained(a)
    ensures Chained(ImportDocuments(a, docs))
    decreases |docs|
  {
    if docs != [] {
      hide Inv, Chained, UpsertDocument, Extends;
      var init, d := docs[..|docs| - 1], docs[|docs| - 1];
      ImportChains(a, init);
      ImportStep(a, init);
      var m := ImportDocuments(a, init);
      UpsertExtends(m, d.id, d.title, d.parentId, d.level, d.markdown);
      ExtendChains(m, ImportDocuments(a, docs), d.id, d.markdown, CurrentVersion(m, d.id));
    }
  }

  ghost predicate AllDistinct(space: Space) {
    forall s | s in space.changeSessions :: DistinctEdits(s.changes)
  }

  lemma NextChains(a: Space, e: Event)
    requires Inv(a) && Chained(a) && AllDistinct(a)
    ensures Chained(Next(a, e))
  {
    match e
    case Create(_, _) =>
    case Move(_, _) =>
    case PublishSession(id) =>
      var at := FindSession(a.changeSessions, id);
      if Publish(a, id).1 == Done {
        assert a.changeSessions[at] in a.changeSessions;
        PublishChainsIff(a, id);
      }
    case ImportNew(_, docs) => ImportChains(a, docs);
  }

  // In every run whose sessions each edit distinct documents, the versions of
  // each document are numbered from 1 and each is based on the one before it:
  // nothing that was published is overwritten unseen.
  lemma {:induction false} HistoriesAreChains(es: seq<Event>)
    requires AllDistinct(Run(EMPTY_SPACE, es))
    ensures Inv(Run(EMPTY_SPACE, es)) && Chained(Run(EMPTY_SPACE, es))
    decreases |es|
  {
    EmptyInv();
    RunStep(EMPTY_SPACE, es);
    if es != [] {
      var init := es[..|es| - 1];
      RunStep(EMPTY_SPACE, init);
      var a, b := Run(EMPTY_SPACE, init), Run(EMPTY_SPACE, es);
      NextStep(a, es[|es| - 1]);
      forall s | s in a.changeSessions ensures DistinctEdits(s.changes) {
        var i :| 0 <= i < |a.changeSessions| && a.changeSessions[i] == s;
        assert b.changeSessions[i] in b.changeSessions;
      }
      hide Inv, Chained, Next, AllDistinct, Evolves;
      HistoriesAreChains(init);
      NextChains(a, es[|es| - 1]);
    }
  }

  // ------------------------------------------------------------- staleness

  // An edit's base is some version of its document.
  ghost predicate Known(space: Space, c: Change) {
    !c.isNew ==>
      HasDocument(space, c.docId) &&
      exists k :: 0 <= k < |VersionsOf(space.versions, c.docId)| &&
          VersionsOf(space.versions, c.docId)[k].id == c.baseVersionId
  }

  ghost predicate AllKnown(space: Space) {
    forall s, c | s in space.changeSessions && c in s.changes :: Known(space, c)
  }

  predicate Stale(space: Space, s: Session) {
    DetectConflicts(space, s.changes) != []
  }

  lemma KnownEvolves(a: Space, b: Space, c: Change)
    requires Evolves(a, b) && Known(a, c)
    ensures Known(b, c)
  {
    if !c.isNew {
      var k :| 0 <= k < |VersionsOf(a.versions, c.docId)| && VersionsOf(a.versions, c.docId)[k].id == c.baseVersionId;
      VersionsOfPrefix(a.versions, b.versions, c.docId);
      assert VersionsOf(b.versions, c.docId)[k].id == c.baseVersionId;
    }
  }

  // A change that conflicts conflicts for ever.
  lemma ConflictEvolves(a: Space, b: Space, c: Change)
    requires Inv(a) && Inv(b) && Evolves(a, b) && Known(a, c) && ConflictOf(a, c) != []
    ensures ConflictOf(b, c) != []
  {
    if !c.isNew {
      assert DocumentInv(a, c.docId) && DocumentInv(b, c.docId);
      VersionsOfPrefix(a.versions, b.versions, c.docId);
      var va, vb := VersionsOf(a.versions, c.docId), VersionsOf(b.versions, c.docId);
      var k :| 0 <= k < |va| && va[k].id == c.baseVersionId;
      assert va[|va| - 1].id != c.baseVersionId;
      assert vb[k].id == c.baseVersionId && k < |va| - 1 <= |vb| - 1;
    }
  }

  lemma {:induction false} ConflictSomewhere(space: Space, changes: seq<Change>)
    requires DetectConflicts(space, changes) != []
    ensures exists i :: 0 <= i < |changes| && ConflictOf(space, changes[i]) != []
    decreases |changes|
  {
    hide ConflictOf;
    var n := |changes| - 1;
    if ConflictOf(space, changes[n]) == [] {
      ConflictSomewhere(space, changes[..n]);
      var i :| 0 <= i < n && ConflictOf(space, changes[..n][i]) != [];
      assert changes[i] == changes[..n][i];
    }
  }

  lemma StaleEvolves(a: Space, b: Space, i: nat)
    requires Inv(a) && Inv(b) && Evolves(a, b) && AllKnown(a)
    requires i < |a.changeSessions| && Stale(a, a.changeSessions[i])
    ensures Stale(b, b.changeSessions[i])
  {
    var s := a.changeSessions[i];
    assert s in a.changeSessions;
    ConflictSomewhere(a, s.changes);
    var k :| 0 <= k < |s.changes| && ConflictOf(a, s.changes[k]) != [];
    assert s.changes[k] in s.changes;
    ConflictEvolves(a, b, s.changes[k]);
    ConflictAt(b, s.changes, k);
  }

  lemma NormalizedKnown(space: Space, input: ChangeInput)
    requires Inv(space) && NormalizeChange(space, input).Some?
    ensures Known(space, NormalizeChange(space, input).value)
  {
    var c := NormalizeChange(space, input).value;
    if !c.isNew {
      assert DocumentInv(space, c.docId);
      var vs := VersionsOf(space.versions, c.docId);
      assert vs[|vs| - 1].id == c.baseVersionId;
    }
  }

  lemma {:induction false} AllNormalizedKnown(space: Space, inputs: seq<ChangeInput>)
    requires Inv(space) && NormalizeChanges(space, inputs).Some?
    ensures forall c | c in NormalizeChanges(space, inputs).value :: Known(space, c)
    decreases |inputs|
  {
    hide Inv, Known, NormalizeChange;
    if inputs != [] {
      AllNormalizedKnown(space, inputs[..|inputs| - 1]);
      NormalizedKnown(space, inputs[|inputs| - 1]);
    }
  }

  lemma KnownStep(a: Space, e: Event)
    requires Inv(a) && AllKnown(a)
    ensures AllKnown(Next(a, e))
  {
    NextStep(a, e);
    var b := Next(a, e);
    NewSessions(a, e);
    forall s, c | s in b.changeSessions && c in s.changes ensures Known(b, c) {
      var i :| 0 <= i < |b.changeSessions| && b.changeSessions[i] == s;
      if i < |a.changeSessions| {
        assert a.changeSessions[i] in a.changeSessions && c in a.changeSessions[i].changes;
        hide Known;
        KnownEvolves(a, b, c);
      }
    }
  }

  lemma NewSessions(a: Space, e: Event)
    requires Inv(a)
    ensures forall i, c | |a.changeSessions| <= i < |Next(a, e).changeSessions| &&
        c in Next(a, e).changeSessions[i].changes ::
              Known(Next(a, e), c)
  {
    hide Inv, PublishChanges, DetectConflicts, ImportDocuments, Known;
    match e
    case Create(id, inputs) =>
      if CreateSession(a, id, inputs).1 == Done {
        AllNormalizedKnown(a, inputs);
        forall c | c in NormalizeChanges(a, inputs).value ensures Known(Next(a, e), c) {
          KnownSame(a, Next(a, e), c);
        }
      }
    case Move(_, _) =>
    case PublishSession(id) =>
      var at := FindSession(a.changeSessions, id);
      if at < |a.changeSessions| { PublishKeepsSessions(a, a.changeSessions[at].changes); }
    case ImportNew(_, docs) =>
      ImportKeepsSessions(a, docs);
  }

  lemma KnownSame(a: Space, b: Space, c: Change)
    requires Known(a, c) && a.documents == b.documents && a.versions == b.versions
    ensures Known(b, c)
  {
  }

  lemma {:induction false} ImportKeepsSessions(a: Space, docs: seq<ImportedDocument>)
    ensures ImportDocuments(a, docs).changeSessions == a.changeSessions
    decreases |docs|
  {
    if docs != [] { ImportKeepsSessions(a, docs[..|docs| - 1]); }
  }

  // A session becomes published only by a publish that finds no conflict.
  lemma FreezesOnlyCurrent(a: Space, e: Event, i: nat)
    requires Inv(a) && i < |a.changeSessions| && !Frozen(a.changeSessions[i])
    requires |Next(a, e).changeSessions| > i && Frozen(Next(a, e).changeSessions[i])
    ensures !Stale(a, a.changeSessions[i])
    ensures Next(a, e).documents == PublishChanges(a, a.changeSessions[i].changes).documents
    ensures Next(a, e).versions == PublishChanges(a, a.changeSessions[i].changes).versions
  {
    hide Inv, PublishChanges, DetectConflicts, ImportDocuments;
    if e.ImportNew? {
      ImportKeepsSessions(a, e.docs);
    } else if e.PublishSession? {
      var at := FindSession(a.changeSessions, e.id);
      if at < |a.changeSessions| { PublishKeepsSessions(a, a.changeSessions[at].changes); }
    }
  }

  lemma {:induction false} RunKnown(a: Space, es: seq<Event>)
    requires Inv(a) && AllKnown(a)
    ensures AllKnown(Run(a, es))
    decreases |es|
  {
    hide Inv, AllKnown, Next, Evolves;
    if es != [] {
      RunKnown(a, es[..|es| - 1]);
      RunStep(a, es[..|es| - 1]);
      KnownStep(Run(a, es[..|es| - 1]), es[|es| - 1]);
    }
  }

  // Once a session is stale no run of drafts, transitions, publishes and
  // imports ever publishes it.
  lemma {:induction false} StaleNeverPublished(a: Space, es: seq<Event>, i: nat)
    requires Inv(a) && AllKnown(a)
    requires i < |a.changeSessions| && !Frozen(a.changeSessions[i]) && Stale(a, a.changeSessions[i])
    ensures |Run(a, es).changeSessions| > i
    ensures !Frozen(Run(a, es).changeSessions[i]) && Stale(Run(a, es), Run(a, es).changeSessions[i])
    decreases |es|
  {
    if es != [] {
      hide Inv, AllKnown, Next, Stale, Known;
      var init, e := es[..|es| - 1], es[|es| - 1];
      StaleNeverPublished(a, init, i);
      RunStep(a, init);
      RunKnown(a, init);
      var b, c := Run(a, init), Run(a, es);
      NextStep(b, e);
      StaleEvolves(b, c, i);
      if Frozen(c.changeSessions[i]) { FreezesOnlyCurrent(b, e, i); }
    }
  }

  // A published session never changes again.
  lemma PublishedNeverChanges(a: Space, es: seq<Event>, i: nat)
    requires Inv(a) && i < |a.changeSessions| && Frozen(a.changeSessions[i])
    ensures |Run(a, es).changeSessions| > i && Run(a, es).changeSessions[i] == a.changeSessions[i]
  {
    RunStep(a, es);
  }

  // Two drafts of one document against the same version of it, or that both create it.
  ghost predicate Rivals(s: Session, t: Session) {
    exists c, d :: c in s.changes && d in t.changes && c.docId == d.docId && c.isNew == d.isNew &&
        c.baseVersionId == d.baseVersionId
  }

  lemma PublishMakesRivalStale(a: Space, b: Space, s: Session, t: Session)
    requires Inv(a) && Inv(b) && Rivals(s, t) && !Stale(a, s)
    requires b.documents == PublishChanges(a, s.changes).documents &&
        b.versions == PublishChanges(a, s.changes).versions
    ensures Stale(b, t)
  {
    var c, d :| c in s.changes && d in t.changes && c.docId == d.docId && c.isNew == d.isNew &&
        c.baseVersionId == d.baseVersionId;
    var i :| 0 <= i < |s.changes| && s.changes[i] == c;
    var j :| 0 <= j < |t.changes| && t.changes[j] == d;
    NoConflictAt(a, s.changes, i);
    PublishGrows(a, s.changes, i);
    SameDocuments(PublishChanges(a, s.changes), b, c.docId);
    assert DocumentInv(a, c.docId) && DocumentInv(b, c.docId);
    ConflictAt(b, t.changes, j);
  }

  // Of two sessions drafted against the same version of one document at most
  // one is ever published.
  lemma {:induction false} RivalsNotBothPublished(a: Space, es: seq<Event>, i: nat, j: nat)
    requires Inv(a) && AllKnown(a) && i < |a.changeSessions| && j < |a.changeSessions| && i != j
    requires !Frozen(a.changeSessions[i]) && !Frozen(a.changeSessions[j])
    requires Rivals(a.changeSessions[i], a.changeSessions[j])
    ensures var b := Run(a, es);
            && |b.changeSessions| > i && |b.changeSessions| > j
            && !(Frozen(b.changeSessions[i]) && Frozen(b.changeSessions[j]))
            && (Frozen(b.changeSessions[i]) ==> Stale(b, b.changeSessions[j]))
            && (Frozen(b.changeSessions[j]) ==> Stale(b, b.changeSessions[i]))
    decreases |es|
  {
    if es != [] {
      var init, e := es[..|es| - 1], es[|es| - 1];
      RivalsNotBothPublished(a, init, i, j);
      RunStep(a, init);
      RunKnown(a, init);
      var b, c := Run(a, init), Run(a, es);
      NextStep(b, e);
      assert Rivals(b.changeSessions[i], b.changeSessions[j]) && Rivals(b.changeSessions[j], b.changeSessions[i]);
      hide Inv, AllKnown, Next, Stale, Known, Run, Rivals;
      RivalStep(b, c, e, i, j);
      RivalStep(b, c, e, j, i);
    }
  }

  lemma RivalStep(b: Space, c: Space, e: Event, i: nat, j: nat)
    requires Inv(b) && Inv(c) && AllKnown(b) && Evolves(b, c) && c == Next(b, e)
    requires i < |b.changeSessions| && j < |b.changeSessions| && i != j
    requires Rivals(b.changeSessions[i], b.changeSessions[j])
    requires !(Frozen(b.changeSessions[i]) && Frozen(b.changeSessions[j]))
    requires Frozen(b.changeSessions[i]) ==> Stale(b, b.changeSessions[j])
    requires Frozen(b.changeSessions[j]) ==> Stale(b, b.changeSessions[i])
    ensures !(Frozen(c.changeSessions[i]) && Frozen(c.changeSessions[j])) ||
        (Frozen(b.changeSessions[j]) && !Frozen(b.changeSessions[i]))
    ensures Frozen(b.changeSessions[j]) ==> !Frozen(c.changeSessions[i])
    ensures Frozen(c.changeSessions[i]) ==> Stale(c, c.changeSessions[j])
  {
    hide Inv, AllKnown, Next, Stale, Known, Rivals;
    if Frozen(b.changeSessions[i]) {
      StaleEvolves(b, c, j);
      if Frozen(c.changeSessions[j]) { FreezesOnlyCurrent(b, e, j); }
    } else if Frozen(c.changeSessions[i]) {
      FreezesOnlyCurrent(b, e, i);
      SameChangesRival(b.changeSessions[i], b.changeSessions[j], c.changeSessions[j]);
      PublishMakesRivalStale(b, c, b.changeSessions[i], c.changeSessions[j]);
      if Frozen(c.changeSessions[j]) { OnlyOneFreezes(b, e, i, j); }
    }
  }

  lemma SameChangesRival(s: Session, t: Session, u: Session)
    requires Rivals(s, t) && t.changes == u.changes
    ensures Rivals(s, u)
  {
  }

  lemma OnlyOneFreezes(a: Space, e: Event, i: nat, j: nat)
    requires Inv(a) && i < |a.changeSessions| && j < |a.changeSessions| && i != j
    requires !Frozen(a.changeSessions[i]) && i < |Next(a, e).changeSessions| && Frozen(Next(a, e).changeSessions[i])
    ensures |Next(a, e).changeSessions| == |a.changeSessions| && Next(a, e).changeSessions[j] == a.changeSessions[j]
  {
    hide Inv, PublishChanges, DetectConflicts, ImportDocuments;
    if e.ImportNew? {
      ImportKeepsSessions(a, e.docs);
    } else if e.PublishSession? {
      var at := FindSession(a.changeSessions, e.id);
      if at < |a.changeSessions| { PublishKeepsSessions(a, a.changeSessions[at].changes); }
    }
  }

  // A session in preview is published exactly when each of its edits is based
  // on its document's current version and each document it creates is missing;
  // otherwise no document and no version changes.
  lemma PublishedIffCurrent(a: Space, id: string)
    requires var at := FindSession(a.changeSessions, id);
             at < |a.changeSessions| && a.changeSessions[at].status == Preview && !a.changeSessions[at].immutable
    ensures var s := a.changeSessions[FindSession(a.changeSessions, id)];
            var (b, outcome) := Publish(a, id);
            && (outcome == Done <==>
                  forall c | c in s.changes ::
                    if c.isNew then !HasDocument(a, c.docId)
                    else HasDocument(a, c.docId) && DocumentOf(a, c.docId).currentVersionId == c.baseVersionId)
            && (outcome != Done ==> b.documents == a.documents && b.versions == a.versions)
  {
    var s := a.changeSessions[FindSession(a.changeSessions, id)];
    hide DetectConflicts, PublishChanges, HasDocument;
    if Publish(a, id).1 == Done {
      forall c | c in s.changes ensures ConflictOf(a, c) == [] {
        var i :| 0 <= i < |s.changes| && s.changes[i] == c;
        NoConflictAt(a, s.changes, i);
      }
    } else {
      ConflictSomewhere(a, s.changes);
      var i :| 0 <= i < |s.changes| && ConflictOf(a, s.changes[i]) != [];
      assert s.changes[i] in s.changes;
    }
  }
}
