// The change sessions of server/knowledge-space.js: drafts of document changes
// that are reviewed, and published only onto the versions they were drafted from.
module KnowledgeSessions {
  import opened Text
  import opened Wrappers

  // stableId('ver', docId, contentHash, number), taken as injective.
  datatype VersionId = NoVersion | Ver(docId: string, content: string, number: nat)

  datatype Version = Version(
    id: VersionId,
    docId: string,
    versionNumber: nat,
    sourceMarkdown: string,
    baseVersionId: VersionId)

  datatype Document = Document(
    id: string,
    title: string,
    parentId: string,
    level: int,
    sourceMarkdown: string,
    currentVersionId: VersionId)

  datatype Change = Change(
    docId: string,
    isNew: bool,
    title: string,
    parentId: string,
    level: int,
    baseVersionId: VersionId,
    proposedMarkdown: string)

  datatype Conflict =
    | DocumentCreated(docId: string, latestVersionId: VersionId)
    | DocumentDeleted(docId: string)
    | BaseVersionChanged(docId: string, baseVersionId: VersionId, latestVersionId: VersionId)

  datatype Status = Draft | Diff | Preview | Published

  datatype Session = Session(
    id: string,
    status: Status,
    immutable: bool,
    conflict: bool,
    conflictDetails: seq<Conflict>,
    changes: seq<Change>)

  datatype Space = Space(documents: seq<Document>, versions: seq<Version>, changeSessions: seq<Session>)

  datatype Outcome =
    | Done
    | Conflicted(conflicts: seq<Conflict>)
    | NoChanges
    | UnknownDocument
    | SessionNotFound
    | SessionImmutable
    | InvalidTransition

  // -------------------------------------------------------------- documents

  function FindDocument(documents: seq<Document>, id: string): (i: nat)
    ensures i <= |documents|
  {
    if documents == [] || documents[0].id == id then 0 else 1 + FindDocument(documents[1..], id)
  }

  predicate HasDocument(space: Space, id: string) {
    FindDocument(space.documents, id) < |space.documents|
  }

  function DocumentOf(space: Space, id: string): Document
    requires HasDocument(space, id)
  {
    space.documents[FindDocument(space.documents, id)]
  }

  function VersionsOf(versions: seq<Version>, docId: string): seq<Version> {
    if versions == [] then []
    else
      var v := versions[|versions| - 1];
      VersionsOf(versions[..|versions| - 1], docId) + (if v.docId == docId then [v] else [])
  }

  function DocumentVersionNumber(versions: seq<Version>, docId: string): nat {
    |VersionsOf(versions, docId)| + 1
  }

  function NewVersion(space: Space, docId: string, markdown: string, base: VersionId): Version {
    var n := DocumentVersionNumber(space.versions, docId);
    Version(Ver(docId, markdown, n), docId, n, markdown, base)
  }

  // upsertDocumentFromMarkdown
  function UpsertDocument(space: Space, id: string, title: string, parentId: string, level: int,
                          markdown: string): Space {
    var at := FindDocument(space.documents, id);
    var base := if at < |space.documents| then space.documents[at].currentVersionId else NoVersion;
    var version := NewVersion(space, id, markdown, base);
    var doc := Document(id, title, parentId, level, markdown, version.id);
    space.(documents := if at < |space.documents| then space.documents[at := doc] else space.documents + [doc],
           versions := space.versions + [version])
  }

  // --------------------------------------------------------------- sessions

  // What the caller of createKnowledgeChangeSession gives for one document.
  datatype ChangeInput = ChangeInput(
    docId: string,
    isNew: bool,
    title: string,
    parentId: string,
    level: int,
    proposedMarkdown: string)

  function NormalizeChange(space: Space, input: ChangeInput): Option<Change> {
    var docId := Trim(input.docId);
    var exists_ := HasDocument(space, docId);
    if !exists_ && !input.isNew then None
    else
      var source := if exists_ then DocumentOf(space, docId).sourceMarkdown else "";
      Some(Change(docId, input.isNew && !exists_, Trim(if input.title != "" then input.title else docId),
                  Trim(input.parentId), if input.level != 0 then input.level else 1,
                  if exists_ then DocumentOf(space, docId).currentVersionId else NoVersion,
                  Trim(if input.proposedMarkdown != "" then input.proposedMarkdown else source)))
  }

  function NormalizeChanges(space: Space, inputs: seq<ChangeInput>): Option<seq<Change>> {
    if inputs == [] then Some([])
    else
      match NormalizeChanges(space, inputs[..|inputs| - 1])
      case None => None
      case Some(before) =>
        match NormalizeChange(space, inputs[|inputs| - 1])
        case None => None
        case Some(change) => Some(before + [change])
  }

  function CreateSession(space: Space, id: string, inputs: seq<ChangeInput>): (Space, Outcome) {
    if inputs == [] then (space, NoChanges)
    else
      match NormalizeChanges(space, inputs)
      case None => (space, UnknownDocument)
      case Some(changes) =>
        (space.(changeSessions := space.changeSessions + [Session(id, Draft, false, false, [], changes)]), Done)
  }

  function FindSession(sessions: seq<Session>, id: string): (i: nat)
    ensures i <= |sessions| && (i < |sessions| ==> sessions[i].id == id)
  {
    if sessions == [] || sessions[0].id == id then 0 else 1 + FindSession(sessions[1..], id)
  }

  predicate Allowed(from: Status, next: Status) {
    match from
    case Draft => next == Draft || next == Diff
    case Diff => next == Diff || next == Preview
    case Preview => next == Preview || next == Diff
    case Published => false
  }

  function Moved(s: Session, next: Status): Session {
    s.(status := next,
       conflict := s.conflict && next == Diff,
       conflictDetails := if next == Diff then s.conflictDetails else [])
  }

  // transitionSession
  function Transition(space: Space, id: string, next: Status): (Space, Outcome) {
    var at := FindSession(space.changeSessions, id);
    if at == |space.changeSessions| then (space, SessionNotFound)
    else
      var s := space.changeSessions[at];
      if s.immutable || s.status == Published then (space, SessionImmutable)
      else if !Allowed(s.status, next) then (space, InvalidTransition)
      else (space.(changeSessions := space.changeSessions[at := Moved(s, next)]), Done)
  }

  // ------------------------------------------------------------- publishing

  function ConflictOf(space: Space, change: Change): seq<Conflict> {
    if change.isNew then
      if HasDocument(space, change.docId)
          then [DocumentCreated(change.docId, DocumentOf(space, change.docId).currentVersionId)]
      else []
    else if !HasDocument(space, change.docId) then [DocumentDeleted(change.docId)]
    else
      var current := DocumentOf(space, change.docId).currentVersionId;
      if current != change.baseVersionId then [BaseVersionChanged(change.docId, change.baseVersionId, current)] else []
  }

  function DetectConflicts(space: Space, changes: seq<Change>): seq<Conflict> {
    if changes == [] then []
    else DetectConflicts(space, changes[..|changes| - 1]) + ConflictOf(space, changes[|changes| - 1])
  }

  function PublishChange(space: Space, change: Change): Space {
    if change.isNew then
      UpsertDocument(space, change.docId, change.title, change.parentId, change.level, change.proposedMarkdown)
    else
      var at := FindDocument(space.documents, change.docId);
      if at == |space.documents| then space
      else
        var doc := space.documents[at];
        var version := NewVersion(space, doc.id, change.proposedMarkdown,
                                  if change.baseVersionId != NoVersion then change.baseVersionId
                                      else doc.currentVersionId);
        space.(versions := space.versions + [version],
               documents := space.documents[at := doc.(sourceMarkdown := change.proposedMarkdown,
                                                       currentVersionId := version.id)])
  }

  function PublishChanges(space: Space, changes: seq<Change>): Space {
    if changes == [] then space
    else PublishChange(PublishChanges(space, changes[..|changes| - 1]), changes[|changes| - 1])
  }

  // publishKnowledgeSession, without the notification
  function Publish(space: Space, id: string): (Space, Outcome) {
    var at := FindSession(space.changeSessions, id);
    if at == |space.changeSessions| then (space, SessionNotFound)
    else
      var s := space.changeSessions[at];
      if s.immutable || s.status == Published then (space, SessionImmutable)
      else if s.status != Preview then (space, InvalidTransition)
      else
        var conflicts := DetectConflicts(space, s.changes);
        if conflicts != [] then
          var held := s.(status := Diff, conflict := true, conflictDetails := conflicts);
          (space.(changeSessions := space.changeSessions[at := held]), Conflicted(conflicts))
        else
          var published := s.(status := Published, immutable := true, conflict := false, conflictDetails := []);
          (PublishChanges(space, s.changes).(changeSessions := space.changeSessions[at := published]), Done)
  }

  // The documents of an import that starts a new consensus, and its session.
  datatype ImportedDocument = ImportedDocument(id: string, title: string, parentId: string, level: int,
                                               markdown: string)

  function ImportDocuments(space: Space, docs: seq<ImportedDocument>): Space {
    if docs == [] then space
    else
      var d := docs[|docs| - 1];
      UpsertDocument(ImportDocuments(space, docs[..|docs| - 1]), d.id, d.title, d.parentId, d.level, d.markdown)
  }

  function Import(space: Space, id: string, docs: seq<ImportedDocument>): Space {
    var next := ImportDocuments(space, docs);
    next.(changeSessions := next.changeSessions + [Session(id, Published, true, false, [], [])])
  }

  // ------------------------------------------------------------ the object

  class KnowledgeSpace {
    var documents: seq<Document>
    var versions: seq<Version>
    var changeSessions: seq<Session>

    function State(): Space
      reads this
    {
      Space(documents, versions, changeSessions)
    }

    constructor ()
      ensures State() == Space([], [], [])
    {
      documents, versions, changeSessions := [], [], [];
    }

    method UpsertDocumentFromMarkdown(id: string, title: string, parentId: string, level: int, markdown: string)
      modifies this
      ensures State() == UpsertDocument(old(State()), id, title, parentId, level, markdown)
    {
      var at := FindDocument(documents, id);
      var base := if at < |documents| then documents[at].currentVersionId else NoVersion;
      var number := DocumentVersionNumber(versions, id);
      var version := Version(Ver(id, markdown, number), id, number, markdown, base);
      var doc := Document(id, title, parentId, level, markdown, version.id);
      if at < |documents| {
        documents := documents[at := doc];
      } else {
        documents := documents + [doc];
      }
      versions := versions + [version];
    }

    method CreateKnowledgeChangeSession(id: string, inputs: seq<ChangeInput>) returns (outcome: Outcome)
      modifies this
      ensures (State(), outcome) == CreateSession(old(State()), id, inputs)
    {
      if inputs == [] { return NoChanges; }
      var changes: seq<Change> := [];
      for i := 0 to |inputs|
        invariant State() == old(State())
        invariant NormalizeChanges(State(), inputs[..i]) == Some(changes)
      {
        assert inputs[..i + 1][..i] == inputs[..i];
        var change := NormalizeChange(State(), inputs[i]);
        if change.None? {
          NormalizeStuck(State(), inputs, i + 1);
          return UnknownDocument;
        }
        changes := changes + [change.value];
      }
      assert inputs[..|inputs|] == inputs;
      changeSessions := changeSessions + [Session(id, Draft, false, false, [], changes)];
      return Done;
    }

    method TransitionSession(id: string, next: Status) returns (outcome: Outcome)
      modifies this
      ensures (State(), outcome) == Transition(old(State()), id, next)
    {
      var at := FindSession(changeSessions, id);
      if at == |changeSessions| { return SessionNotFound; }
      var s := changeSessions[at];
      if s.immutable || s.status == Published { return SessionImmutable; }
      if !Allowed(s.status, next) { return InvalidTransition; }
      changeSessions := changeSessions[at := Moved(s, next)];
      return Done;
    }

    method DetectPublishConflicts(changes: seq<Change>) returns (conflicts: seq<Conflict>)
      ensures conflicts == DetectConflicts(State(), changes)
    {
      conflicts := [];
      for i := 0 to |changes|
        invariant conflicts == DetectConflicts(State(), changes[..i])
      {
        assert changes[..i + 1][..i] == changes[..i];
        conflicts := conflicts + ConflictOf(State(), changes[i]);
      }
      assert changes[..|changes|] == changes;
    }

    method PublishAll(changes: seq<Change>)
      modifies this
      ensures State() == PublishChanges(old(State()), changes)
    {
      for i := 0 to |changes|
        invariant State() == PublishChanges(old(State()), changes[..i])
      {
        assert changes[..i + 1][..i] == changes[..i];
        var change := changes[i];
        if change.isNew {
          UpsertDocumentFromMarkdown(change.docId, change.title, change.parentId, change.level,
                                     change.proposedMarkdown);
          continue;
        }
        var at := FindDocument(documents, change.docId);
        if at == |documents| { continue; }
        var doc := documents[at];
        var number := DocumentVersionNumber(versions, doc.id);
        var base := if change.baseVersionId != NoVersion then change.baseVersionId else doc.currentVersionId;
        var version := Version(Ver(doc.id, change.proposedMarkdown, number), doc.id, number, change.proposedMarkdown,
                               base);
        versions := versions + [version];
        documents := documents[at := doc.(sourceMarkdown := change.proposedMarkdown, currentVersionId := version.id)];
      }
      assert changes[..|changes|] == changes;
    }

    method PublishKnowledgeSession(id: string) returns (outcome: Outcome)
      modifies this
      ensures (State(), outcome) == Publish(old(State()), id)
    {
      hide PublishChanges, DetectConflicts;
      var at := FindSession(changeSessions, id);
      if at == |changeSessions| { return SessionNotFound; }
      var s := changeSessions[at];
      if s.immutable || s.status == Published { return SessionImmutable; }
      if s.status != Preview { return InvalidTransition; }
      var conflicts := DetectPublishConflicts(s.changes);
      if conflicts != [] {
        changeSessions := changeSessions[at := s.(status := Diff, conflict := true, conflictDetails := conflicts)];
        return Conflicted(conflicts);
      }
      ghost var before := State();
      PublishAll(s.changes);
      PublishKeepsSessions(before, s.changes);
      changeSessions := changeSessions[at := s.(status := Published, immutable := true, conflict := false,
                                                conflictDetails := [])];
      return Done;
    }
  }

  lemma {:induction false} NormalizeStuck(space: Space, inputs: seq<ChangeInput>, i: nat)
    requires i <= |inputs| && NormalizeChanges(space, inputs[..i]) == None
    ensures NormalizeChanges(space, inputs) == None
    decreases |inputs|
  {
    hide NormalizeChange;
    if i == |inputs| {
      assert inputs[..i] == inputs;
    } else {
      assert inputs[..|inputs| - 1][..i] == inputs[..i];
      NormalizeStuck(space, inputs[..|inputs| - 1], i);
    }
  }

  lemma {:induction false} PublishKeepsSessions(space: Space, changes: seq<Change>)
    ensures PublishChanges(space, changes).changeSessions == space.changeSessions
    decreases |changes|
  {
    if changes != [] { PublishKeepsSessions(space, changes[..|changes| - 1]); }
  }
}
