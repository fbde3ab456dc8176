// ensureConsensusAssignments of server/knowledge-space.js: every document of a
// space gets the consensus of the root its parent chain ends in. Parent links
// come from stored state, so they may dangle or form cycles.
module KnowledgeConsensus {
  import opened Text
  import opened Wrappers
  import opened KnowledgeMarkdown

  // An empty string stands for a missing value; labels is the pair of ids that
  // is also kept in the metadata.
  datatype Labels = Labels(consensusId: string, rootId: string)

  datatype Document = Document(
    id: string, parentId: string, title: string,
    consensusId: string, consensusRootId: string, consensusTitle: string, labels: Labels)

  datatype Anchor = Anchor(docId: string, consensusId: string, consensusRootId: string, labels: Labels)

  datatype Group = Group(id: string, rootDocId: string, title: string)

  // ------------------------------------------------------------ the lookups

  // docById: of equal ids the last document wins.
  function LastDocument(docs: seq<Document>, id: string): (r: Option<nat>)
    ensures r.Some? ==> r.value < |docs| && docs[r.value].id == id
  {
    if docs == [] then None
    else if docs[|docs| - 1].id == id then Some(|docs| - 1)
    else LastDocument(docs[..|docs| - 1], id)
  }

  // groupById and groupByRoot, over the groups that have an id.
  function LastGroupById(groups: seq<Group>, id: string): Option<Group> {
    if groups == [] then None
    else
      var g := groups[|groups| - 1];
      if g.id != "" && g.id == id then Some(g) else LastGroupById(groups[..|groups| - 1], id)
  }

  function LastGroupByRoot(groups: seq<Group>, rootDocId: string): Option<Group> {
    if groups == [] then None
    else
      var g := groups[|groups| - 1];
      if g.id != "" && g.rootDocId != "" && g.rootDocId == rootDocId then Some(g)
      else LastGroupByRoot(groups[..|groups| - 1], rootDocId)
  }

  function Existing(groups: seq<Group>, root: Document): Option<Group> {
    var byRoot := LastGroupByRoot(groups, root.id);
    if byRoot.Some? then byRoot else LastGroupById(groups, root.consensusId)
  }

  // ------------------------------------------------------- the parent walk

  function Parent(docs: seq<Document>, i: nat): (r: Option<nat>)
    requires i < |docs|
    ensures r.Some? ==> r.value < |docs|
  {
    if docs[i].parentId == "" then None else LastDocument(docs, docs[i].parentId)
  }

  // The n-th parent.
  function Ancestor(docs: seq<Document>, i: nat, n: nat): (r: Option<nat>)
    requires i < |docs|
    ensures r.Some? ==> r.value < |docs|
    decreases n
  {
    if n == 0 then Some(i)
    else match Parent(docs, i)
      case None => None
      case Some(p) => Ancestor(docs, p, n - 1)
  }

  ghost predicate ReachesRoot(docs: seq<Document>, i: nat, r: nat)
    requires i < |docs|
  {
    exists n: nat :: Ancestor(docs, i, n) == Some(r) && docs[r].parentId == ""
  }

  function Ids(docs: seq<Document>): set<string> {
    set i | 0 <= i < |docs| :: docs[i].id
  }

  // The walk as the loop takes it, stopping at an id it has seen.
  function Walk(docs: seq<Document>, cursor: nat, seen: set<string>): (r: Option<nat>)
    requires cursor < |docs|
    ensures r.Some? ==> r.value < |docs| && docs[r.value].parentId == ""
    decreases |Ids(docs) - seen|
  {
    var doc := docs[cursor];
    if doc.parentId == "" then Some(cursor)
    else if doc.id in seen then None
    else match LastDocument(docs, doc.parentId)
      case None => None
      case Some(p) =>
        assert doc.id in Ids(docs) - seen && Ids(docs) - (seen + {doc.id}) < Ids(docs) - seen;
        SmallerSet(Ids(docs) - (seen + {doc.id}), Ids(docs) - seen);
        Walk(docs, p, seen + {doc.id})
  }

  lemma SmallerSet(a: set<string>, b: set<string>)
    requires a < b
    ensures |a| < |b|
  {
    assert b == a + (b - a) && |b - a| > 0;
  }

  function RootFor(docs: seq<Document>, i: nat): (r: Option<nat>)
    requires i < |docs|
    ensures r.Some? ==> r.value < |docs| && docs[r.value].parentId == ""
  {
    Walk(docs, i, {})
  }

  ghost predicate Indexes(docById: map<string, nat>, docs: seq<Document>) {
    forall id: string :: LastDocument(docs, id) == if id in docById then Some(docById[id]) else None
  }

  // rootForDoc. The loop ends on every graph: each turn sees a new id.
  method RootForDoc(docs: seq<Document>, docById: map<string, nat>, i: nat) returns (root: Option<nat>)
    requires i < |docs| && Indexes(docById, docs)
    ensures root == RootFor(docs, i)
  {
    var seen: set<string> := {};
    var cursor: nat := i;
    while docs[cursor].parentId != "" && docs[cursor].id !in seen
      invariant cursor < |docs| && Walk(docs, cursor, seen) == RootFor(docs, i)
      decreases |Ids(docs) - seen|
    {
      var doc := docs[cursor];
      assert doc.id in Ids(docs) - seen;
      SmallerSet(Ids(docs) - (seen + {doc.id}), Ids(docs) - seen);
      assert LastDocument(docs, doc.parentId) == if doc.parentId in docById then Some(docById[doc.parentId]) else None;
      seen := seen + {doc.id};
      if doc.parentId !in docById { break; }
      cursor := docById[doc.parentId];
    }
    return if docs[cursor].parentId == "" then Some(cursor) else None;
  }

  ghost predicate DistinctIds(docs: seq<Document>) {
    forall i, j | 0 <= i < j < |docs| :: docs[i].id != docs[j].id
  }

  lemma {:induction false} WalkIsSound(docs: seq<Document>, cursor: nat, seen: set<string>) returns (n: nat)
    requires cursor < |docs| && Walk(docs, cursor, seen).Some?
    ensures Ancestor(docs, cursor, n) == Walk(docs, cursor, seen)
    decreases |Ids(docs) - seen|
  {
    var doc := docs[cursor];
    if doc.parentId == "" {
      n := 0;
    } else {
      assert doc.id in Ids(docs) - seen;
      SmallerSet(Ids(docs) - (seen + {doc.id}), Ids(docs) - seen);
      var k := WalkIsSound(docs, LastDocument(docs, doc.parentId).value, seen + {doc.id});
      n := k + 1;
    }
  }

  lemma {:induction false} AncestorOfAncestor(docs: seq<Document>, i: nat, j: nat, n: nat)
    requires i < |docs| && j <= n && Ancestor(docs, i, j).Some?
    ensures Ancestor(docs, i, n) == Ancestor(docs, Ancestor(docs, i, j).value, n - j)
    decreases j
  {
    if j > 0 { AncestorOfAncestor(docs, Parent(docs, i).value, j - 1, n - 1); }
  }

  // A document is at one distance from its root, so a chain to a root has no cycle.
  lemma {:induction false} OneDistance(docs: seq<Document>, i: nat, n: nat, m: nat)
    requires i < |docs| && Ancestor(docs, i, n).Some? && Ancestor(docs, i, m).Some?
    requires docs[Ancestor(docs, i, n).value].parentId == "" && docs[Ancestor(docs, i, m).value].parentId == ""
    ensures n == m
    decreases n
  {
    if n > 0 && m > 0 { OneDistance(docs, Parent(docs, i).value, n - 1, m - 1); }
  }

  lemma {:induction false} WalkIsComplete(docs: seq<Document>, cursor: nat, n: nat, seen: set<string>)
    requires cursor < |docs| && DistinctIds(docs)
    requires Ancestor(docs, cursor, n).Some? && docs[Ancestor(docs, cursor, n).value].parentId == ""
    requires forall j: nat | j < n ::
        Ancestor(docs, cursor, j).Some? && docs[Ancestor(docs, cursor, j).value].id !in seen
    ensures Walk(docs, cursor, seen) == Ancestor(docs, cursor, n)
    decreases n
  {
    if n > 0 {
      assert Ancestor(docs, cursor, 0) == Some(cursor);
      var p := Parent(docs, cursor).value;
      forall j: nat | j < n - 1
        ensures Ancestor(docs, p, j).Some? && docs[Ancestor(docs, p, j).value].id !in seen + {docs[cursor].id}
      {
        assert Ancestor(docs, cursor, j + 1) == Ancestor(docs, p, j);
        var c := Ancestor(docs, p, j).value;
        AncestorOfAncestor(docs, p, j, n - 1);
        if c == cursor { OneDistance(docs, cursor, n, n - 1 - j); }
        assert c != cursor;
        assert docs[c].id != docs[cursor].id;
      }
      WalkIsComplete(docs, p, n - 1, seen + {docs[cursor].id});
    }
  }

  lemma {:induction false} EarlierAncestors(docs: seq<Document>, i: nat, n: nat, j: nat)
    requires i < |docs| && j <= n && Ancestor(docs, i, n).Some?
    ensures Ancestor(docs, i, j).Some?
    decreases j
  {
    if j > 0 { EarlierAncestors(docs, Parent(docs, i).value, n - 1, j - 1); }
  }

  // The cycle-safe walk finds exactly the root that some number of parent steps
  // reaches, and finds none when the chain cycles or dangles.
  lemma RootFoundIffReached(docs: seq<Document>, i: nat, r: nat)
    requires i < |docs| && DistinctIds(docs)
    ensures RootFor(docs, i) == Some(r) <==> ReachesRoot(docs, i, r)
  {
    if RootFor(docs, i) == Some(r) {
      var n := WalkIsSound(docs, i, {});
    }
    if n: nat :| Ancestor(docs, i, n) == Some(r) && docs[r].parentId == "" {
      forall j: nat | j < n ensures Ancestor(docs, i, j).Some? { EarlierAncestors(docs, i, n, j); }
      WalkIsComplete(docs, i, n, {});
    }
  }

  // ------------------------------------------------------- the assignments

  function ExistingId(groups: seq<Group>, root: Document): string {
    if Existing(groups, root).Some? then Existing(groups, root).value.id else ""
  }

  function ExistingTitle(groups: seq<Group>, root: Document): string {
    if Existing(groups, root).Some? then Existing(groups, root).value.title else ""
  }

  // A root's own id, else its group's, else one made from its title.
  function ChosenId(groups: seq<Group>, idFor: string -> string, root: Document): string {
    Or(Or(root.consensusId, ExistingId(groups, root)), idFor(Or(root.title, root.id)))
  }

  function GivenTitle(groups: seq<Group>, root: Document): string {
    Decode(Or(Or(root.title, ExistingTitle(groups, root)), "Consensus"))
  }

  function RootAssigned(groups: seq<Group>, idFor: string -> string, root: Document): Document {
    var consensusId := Trim(ChosenId(groups, idFor, root));
    root.(consensusId := consensusId,
          consensusRootId := root.id,
          consensusTitle := GivenTitle(groups, root),
          labels := Labels(consensusId, root.id))
  }

  function RootsAssigned(groups: seq<Group>, idFor: string -> string, docs: seq<Document>): (r: seq<Document>)
    ensures |r| == |docs|
  {
    seq(|docs|, i requires 0 <= i < |docs| =>
      if docs[i].parentId == "" then RootAssigned(groups, idFor, docs[i]) else docs[i])
  }

  function Rootless(idFor: string -> string, doc: Document): Document {
    doc.(consensusId := Trim(Or(doc.consensusId, idFor(Or(doc.title, doc.id)))),
         consensusRootId := Or(doc.consensusRootId, doc.id),
         consensusTitle := Or(doc.consensusTitle, Decode(doc.title)))
  }

  function Rooted(doc: Document, root: Document): Document {
    doc.(consensusId := root.consensusId,
         consensusRootId := root.id,
         consensusTitle := Or(root.consensusTitle, Decode(root.title)),
         labels := Labels(root.consensusId, root.id))
  }

  function DocAssigned(idFor: string -> string, docs: seq<Document>, i: nat): Document
    requires i < |docs|
  {
    match RootFor(docs, i)
    case Some(r) => Rooted(docs[i], docs[r])
    case None => Rootless(idFor, docs[i])
  }

  function DocsAssigned(groups: seq<Group>, idFor: string -> string, docs: seq<Document>): (r: seq<Document>)
    ensures |r| == |docs|
  {
    var rooted := RootsAssigned(groups, idFor, docs);
    seq(|docs|, i requires 0 <= i < |docs| => DocAssigned(idFor, rooted, i))
  }

  function AnchorAssigned(docs: seq<Document>, anchor: Anchor): Anchor {
    var d := LastDocument(docs, anchor.docId);
    var id := Or(if d.Some? then docs[d.value].consensusId else "", anchor.consensusId);
    var rootId := Or(if d.Some? then docs[d.value].consensusRootId else "", anchor.consensusRootId);
    anchor.(consensusId := id, consensusRootId := rootId,
            labels := Labels(Or(id, anchor.labels.consensusId), Or(rootId, anchor.labels.rootId)))
  }

  function AnchorsAssigned(docs: seq<Document>, anchors: seq<Anchor>): (r: seq<Anchor>)
    ensures |r| == |anchors|
  {
    seq(|anchors|, i requires 0 <= i < |anchors| => AnchorAssigned(docs, anchors[i]))
  }

  // The groups pushed for the roots, in their sorted order; docs are assigned.
  function Pushed(docs: seq<Document>, order: seq<nat>): (r: seq<Group>)
    requires forall k | 0 <= k < |order| :: order[k] < |docs|
    ensures |r| == |order|
  {
    seq(|order|, k requires 0 <= k < |order| =>
      var root := docs[order[k]]; Group(root.consensusId, root.id, root.consensusTitle))
  }

  predicate HasGroup(groups: seq<Group>, id: string) {
    exists k :: 0 <= k < |groups| && groups[k].id == id
  }

  function FirstOfEach(groups: seq<Group>): seq<Group> {
    if groups == [] then []
    else
      var before := FirstOfEach(groups[..|groups| - 1]);
      var g := groups[|groups| - 1];
      if g.id == "" || HasGroup(before, g.id) then before else before + [g]
  }

  // rootByConsensus: of the roots that share an id the last one wins.
  function LastPushed(pushed: seq<Group>, id: string): Option<string> {
    if pushed == [] then None
    else if pushed[|pushed| - 1].id == id then Some(pushed[|pushed| - 1].rootDocId)
    else LastPushed(pushed[..|pushed| - 1], id)
  }

  function GroupsAssigned(docs: seq<Document>, order: seq<nat>): seq<Group>
    requires forall k | 0 <= k < |order| :: order[k] < |docs|
  {
    var pushed := Pushed(docs, order);
    var firsts := FirstOfEach(pushed);
    seq(|firsts|, k requires 0 <= k < |firsts| => WithRoot(pushed, firsts[k]))
  }

  function WithRoot(pushed: seq<Group>, g: Group): Group {
    var last := LastPushed(pushed, g.id);
    g.(rootDocId := Or(if last.Some? then last.value else "", g.rootDocId))
  }

  // ---------------------------------------------------------- the mutations

  ghost predicate ListsRoots(docs: seq<Document>, order: seq<nat>) {
    && (forall k | 0 <= k < |order| :: order[k] < |docs| && docs[order[k]].parentId == "")
    && (forall i: nat | i < |docs| && docs[i].parentId == "" :: i in order)
    && (forall a, b | 0 <= a < b < |order| :: order[a] != order[b])
  }

  ghost predicate SameLinks(a: seq<Document>, b: seq<Document>) {
    |a| == |b| && forall i | 0 <= i < |a| :: a[i].id == b[i].id && a[i].parentId == b[i].parentId
  }

  lemma {:induction false} SameLookups(a: seq<Document>, b: seq<Document>, id: string)
    requires SameLinks(a, b)
    ensures LastDocument(a, id) == LastDocument(b, id)
  {
    if a != [] { SameLookups(a[..|a| - 1], b[..|b| - 1], id); }
  }

  lemma {:induction false} SameWalks(a: seq<Document>, b: seq<Document>, cursor: nat, seen: set<string>)
    requires SameLinks(a, b) && cursor < |a|
    ensures Walk(a, cursor, seen) == Walk(b, cursor, seen)
    decreases |Ids(a) - seen|
  {
    var doc := a[cursor];
    if doc.parentId != "" && doc.id !in seen {
      SameLookups(a, b, doc.parentId);
      var next := LastDocument(a, doc.parentId);
      if next.Some? {
        assert doc.id in Ids(a) - seen;
        SmallerSet(Ids(a) - (seen + {doc.id}), Ids(a) - seen);
        SameWalks(a, b, next.value, seen + {doc.id});
      }
    }
  }

  // The walk leaves a root as the first pass assigned it.
  lemma RootKeepsAssignment(groups: seq<Group>, idFor: string -> string, docs: seq<Document>, r: nat)
    requires r < |docs| && docs[r].parentId == ""
    ensures var rooted := RootsAssigned(groups, idFor, docs);
            RootFor(rooted, r) == Some(r) && DocAssigned(idFor, rooted, r) == rooted[r]
  {
    hide Existing, Trim;
    assert Decode("") == "";
    hide Decode;
  }

  method IndexDocuments(docs: seq<Document>) returns (docById: map<string, nat>)
    ensures Indexes(docById, docs)
  {
    docById := map[];
    for i := 0 to |docs|
      invariant Indexes(docById, docs[..i])
    {
      assert docs[..i + 1][..i] == docs[..i];
      ghost var before := docById;
      docById := docById[docs[i].id := i];
      forall id: string ensures LastDocument(docs[..i + 1], id) == if id in docById then Some(docById[id]) else None {
        assert LastDocument(docs[..i], id) == if id in before then Some(before[id]) else None;
      }
    }
    assert docs[..|docs|] == docs;
  }

  ghost predicate IndexesGroups(byId: map<string, Group>, byRoot: map<string, Group>, groups: seq<Group>) {
    && (forall id: string :: LastGroupById(groups, id) == if id in byId then Some(byId[id]) else None)
    && (forall id: string :: LastGroupByRoot(groups, id) == if id in byRoot then Some(byRoot[id]) else None)
  }

  method IndexGroups(groups: seq<Group>) returns (byId: map<string, Group>, byRoot: map<string, Group>)
    ensures IndexesGroups(byId, byRoot, groups)
  {
    byId, byRoot := map[], map[];
    for i := 0 to |groups|
      invariant IndexesGroups(byId, byRoot, groups[..i])
    {
      assert groups[..i + 1][..i] == groups[..i];
      var g := groups[i];
      ghost var wasById, wasByRoot := byId, byRoot;
      if g.id != "" {
        byId := byId[g.id := g];
        if g.rootDocId != "" { byRoot := byRoot[g.rootDocId := g]; }
      }
      forall id: string ensures LastGroupById(groups[..i + 1], id) == if id in byId then Some(byId[id]) else None {
        assert LastGroupById(groups[..i], id) == if id in wasById then Some(wasById[id]) else None;
      }
      forall id: string
        ensures LastGroupByRoot(groups[..i + 1], id) == if id in byRoot then Some(byRoot[id]) else None
      {
        assert LastGroupByRoot(groups[..i], id) == if id in wasByRoot then Some(wasByRoot[id]) else None;
      }
    }
    assert groups[..|groups|] == groups;
  }

  ghost predicate IndexesRoots(rootByConsensus: map<string, string>, pushed: seq<Group>) {
    forall id: string :: LastPushed(pushed, id) == if id in rootByConsensus then Some(rootByConsensus[id]) else None
  }

  lemma NothingPushed()
    ensures IndexesRoots(map[], [])
  {
  }

  lemma PushKeepsIndex(rootByConsensus: map<string, string>, pushed: seq<Group>, g: Group)
    requires IndexesRoots(rootByConsensus, pushed)
    ensures IndexesRoots(rootByConsensus[g.id := g.rootDocId], pushed + [g])
  {
    var next := rootByConsensus[g.id := g.rootDocId];
    assert (pushed + [g])[..|pushed|] == pushed;
    forall id: string ensures LastPushed(pushed + [g], id) == if id in next then Some(next[id]) else None {
      assert LastPushed(pushed, id) == if id in rootByConsensus then Some(rootByConsensus[id]) else None;
    }
  }

  // The last part: of the pushed groups, the first of each id with its last root.
  method DistinctGroups(pushed: seq<Group>, rootByConsensus: map<string, string>) returns (groups: seq<Group>)
    requires IndexesRoots(rootByConsensus, pushed)
    ensures var firsts := FirstOfEach(pushed);
            |groups| == |firsts| && forall k | 0 <= k < |firsts| :: groups[k] == WithRoot(pushed, firsts[k])
  {
    groups := [];
    var seen: set<string> := {};
    ghost var firsts: seq<Group> := [];
    for i := 0 to |pushed|
      invariant firsts == FirstOfEach(pushed[..i]) && |groups| == |firsts|
      invariant forall k | 0 <= k < |firsts| :: groups[k] == WithRoot(pushed, firsts[k])
      invariant forall id: string :: id in seen <==> HasGroup(firsts, id)
    {
      hide LastPushed;
      assert pushed[..i + 1][..i] == pushed[..i];
      var g := pushed[i];
      if g.id == "" || g.id in seen { continue; }
      ghost var before := firsts;
      firsts := firsts + [g];
      forall id: string ensures HasGroup(firsts, id) <==> HasGroup(before, id) || id == g.id {
        assert firsts[|before|] == g && forall k | 0 <= k < |before| :: firsts[k] == before[k];
      }
      seen := seen + {g.id};
      assert LastPushed(pushed, g.id) == if g.id in rootByConsensus then Some(rootByConsensus[g.id]) else None;
      var rootDocId := if g.id in rootByConsensus then rootByConsensus[g.id] else "";
      groups := groups + [g.(rootDocId := if rootDocId != "" then rootDocId else g.rootDocId)];
    }
    assert pushed[..|pushed|] == pushed;
  }

  class ConsensusSpace {
    var documents: seq<Document>
    var anchors: seq<Anchor>
    var consensusGroups: seq<Group>

    constructor (docs: seq<Document>, marks: seq<Anchor>, groups: seq<Group>)
      ensures documents == docs && anchors == marks && consensusGroups == groups
    {
      documents, anchors, consensusGroups := docs, marks, groups;
    }

    method AssignRoots(idFor: string -> string, order: seq<nat>)
      returns (pushed: seq<Group>, rootByConsensus: map<string, string>)
      requires ListsRoots(documents, order)
      modifies this`documents
      ensures documents == RootsAssigned(consensusGroups, idFor, old(documents))
      ensures pushed == Pushed(documents, order) && IndexesRoots(rootByConsensus, pushed)
    {
      hide RootAssigned, IndexesRoots, IndexesGroups;
      var byId, byRoot := IndexGroups(consensusGroups);
      ghost var docs := documents;
      pushed, rootByConsensus := [], map[];
      NothingPushed();
      for k := 0 to |order|
        invariant |documents| == |docs| && |pushed| == k
        invariant forall i | 0 <= i < |docs| ::
                    documents[i] == if i in order[..k] then RootAssigned(consensusGroups, idFor, docs[i]) else docs[i]
        invariant forall a | 0 <= a < k ::
                    var root := RootAssigned(consensusGroups, idFor, docs[order[a]]);
                    pushed[a] == Group(root.consensusId, root.id, root.consensusTitle)
        invariant IndexesRoots(rootByConsensus, pushed)
      {
        TakeNext(order, k);
        assert order[k] !in order[..k];
        var root := AssignRoot(byId, byRoot, consensusGroups, idFor, documents[order[k]]);
        documents := documents[order[k] := root];
        var group := Group(root.consensusId, root.id, root.consensusTitle);
        PushKeepsIndex(rootByConsensus, pushed, group);
        pushed := pushed + [group];
        rootByConsensus := rootByConsensus[root.consensusId := root.id];
      }
      assert order[..|order|] == order;
    }

    // The body of the loop over roots.
    static method AssignRoot(byId: map<string, Group>, byRoot: map<string, Group>, ghost groups: seq<Group>,
                             idFor: string -> string, root: Document) returns (r: Document)
      requires IndexesGroups(byId, byRoot, groups)
      ensures r == RootAssigned(groups, idFor, root) && r.id == root.id
    {
      var existing := if root.id in byRoot then Some(byRoot[root.id])
                      else if root.consensusId in byId then Some(byId[root.consensusId]) else None;
      assert LastGroupByRoot(groups, root.id) == if root.id in byRoot then Some(byRoot[root.id]) else None;
      assert LastGroupById(groups, root.consensusId) ==
             if root.consensusId in byId then Some(byId[root.consensusId]) else None;
      assert existing == Existing(groups, root);
      hide Existing, LastGroupById, LastGroupByRoot, Trim, Decode;
      var id := root.consensusId;
      if id == "" && existing.Some? { id := existing.value.id; }
      if id == "" { id := idFor(if root.title != "" then root.title else root.id); }
      var title := root.title;
      if title == "" && existing.Some? { title := existing.value.title; }
      if title == "" { title := "Consensus"; }
      r := root.(consensusId := Trim(id), consensusRootId := root.id, consensusTitle := Decode(title),
                 labels := Labels(Trim(id), root.id));
    }

    method AssignDocuments(idFor: string -> string, docById: map<string, nat>, ghost docs: seq<Document>)
      requires documents == RootsAssigned(consensusGroups, idFor, docs) && Indexes(docById, documents)
      modifies this`documents
      ensures documents == DocsAssigned(consensusGroups, idFor, docs)
    {
      hide RootFor, RootAssigned, Existing;
      ghost var rooted := documents;
      for i := 0 to |documents|
        invariant |documents| == |rooted| && SameLinks(documents, rooted)
        invariant forall j: nat | j < |rooted| ::
                    documents[j] == if j < i then DocAssigned(idFor, rooted, j) else rooted[j]
      {
        forall id: string ensures LastDocument(documents, id) == LastDocument(rooted, id) {
          SameLookups(documents, rooted, id);
        }
        var root := RootForDoc(documents, docById, i);
        SameRoots(documents, rooted, i);
        var doc := documents[i];
        if root.None? {
          doc := doc.(consensusId := Trim(if doc.consensusId != "" then doc.consensusId
                                          else idFor(if doc.title != "" then doc.title else doc.id)),
                      consensusRootId := if doc.consensusRootId != "" then doc.consensusRootId else doc.id,
                      consensusTitle := if doc.consensusTitle != "" then doc.consensusTitle else Decode(doc.title));
        } else {
          var r := documents[root.value];
          RootKeepsAssignment(consensusGroups, idFor, docs, root.value);
          doc := doc.(consensusId := r.consensusId, consensusRootId := r.id,
                      consensusTitle := if r.consensusTitle != "" then r.consensusTitle else Decode(r.title),
                      labels := Labels(r.consensusId, r.id));
        }
        assert doc == DocAssigned(idFor, rooted, i);
        documents := documents[i := doc];
      }
    }

    method AssignAnchors(docById: map<string, nat>)
      requires Indexes(docById, documents)
      modifies this`anchors
      ensures anchors == AnchorsAssigned(documents, old(anchors))
    {
      ghost var before := anchors;
      for i := 0 to |anchors|
        invariant |anchors| == |before|
        invariant forall j | 0 <= j < |before| ::
                    anchors[j] == if j < i then AnchorAssigned(documents, before[j]) else before[j]
      {
        var anchor := anchors[i];
        assert LastDocument(documents, anchor.docId) ==
               if anchor.docId in docById then Some(docById[anchor.docId]) else None;
        hide LastDocument;
        if anchor.docId in docById {
          var doc := documents[docById[anchor.docId]];
          anchor := anchor.(consensusId := if doc.consensusId != "" then doc.consensusId else anchor.consensusId,
                            consensusRootId := if doc.consensusRootId != "" then doc.consensusRootId
                                else anchor.consensusRootId);
        }
        if anchor.consensusId != "" {
          anchor := anchor.(labels := anchor.labels.(consensusId := anchor.consensusId));
        }
        if anchor.consensusRootId != "" {
          anchor := anchor.(labels := anchor.labels.(rootId := anchor.consensusRootId));
        }
        anchors := anchors[i := anchor];
      }
    }

    // order is the sorted list of the root documents' positions.
    method EnsureConsensusAssignments(idFor: string -> string, order: seq<nat>)
      requires ListsRoots(documents, order)
      modifies this
      ensures documents == DocsAssigned(old(consensusGroups), idFor, old(documents))
      ensures anchors == AnchorsAssigned(documents, old(anchors))
      ensures consensusGroups == GroupsAssigned(documents, order)
    {
      ghost var docs := documents;
      var docById := IndexDocuments(documents);
      var pushed, rootByConsensus := AssignRoots(idFor, order);
      ghost var rooted := documents;
      hide RootAssigned, DocAssigned, FirstOfEach, WithRoot, LastPushed, LastDocument;
      assert SameLinks(docs, documents);
      forall id: string ensures LastDocument(documents, id) == LastDocument(docs, id) {
        SameLookups(docs, documents, id);
      }
      AssignDocuments(idFor, docById, docs);
      assert SameLinks(docs, documents);
      forall id: string ensures LastDocument(documents, id) == LastDocument(docs, id) {
        SameLookups(docs, documents, id);
      }
      AssignAnchors(docById);
      forall k | 0 <= k < |order| ensures documents[order[k]] == rooted[order[k]] {
        RootKeepsAssignment(consensusGroups, idFor, docs, order[k]);
      }
      assert pushed == Pushed(documents, order);
      consensusGroups := DistinctGroups(pushed, rootByConsensus);
    }
  }

  lemma SameRoots(a: seq<Document>, b: seq<Document>, i: nat)
    requires SameLinks(a, b) && i < |a|
    ensures RootFor(a, i) == RootFor(b, i)
  {
    SameWalks(a, b, i, {});
  }

  // ---------------------------------------------- what the assignment leaves

  lemma AssignedSpec(groups: seq<Group>, idFor: string -> string, docs: seq<Document>, i: nat)
    requires i < |docs|
    ensures var rooted := RootsAssigned(groups, idFor, docs);
            var a := DocsAssigned(groups, idFor, docs);
            && SameLinks(docs, rooted) && SameLinks(docs, a)
            && RootFor(a, i) == RootFor(docs, i)
            && (match RootFor(docs, i)
                case None => a[i] == Rootless(idFor, docs[i]) && docs[i].parentId != ""
                case Some(r) => a[r] == RootAssigned(groups, idFor, docs[r]) && a[i] == Rooted(rooted[i], a[r]))
  {
    var rooted := RootsAssigned(groups, idFor, docs);
    var a := DocsAssigned(groups, idFor, docs);
    assert SameLinks(docs, rooted) && SameLinks(docs, a);
    hide RootAssigned, Rooted, Rootless, Walk;
    SameRoots(docs, rooted, i);
    SameRoots(docs, a, i);
    if docs[i].parentId == "" { RootKeepsAssignment(groups, idFor, docs, i); }
    var root := RootFor(docs, i);
    if root.Some? { RootKeepsAssignment(groups, idFor, docs, root.value); }
  }

  // A document whose parent chain reaches a root carries that root's consensus;
  // the labels in its metadata say the same.
  lemma DocumentsFollowTheirRoots(groups: seq<Group>, idFor: string -> string, docs: seq<Document>, i: nat, r: nat)
    requires i < |docs| && DistinctIds(docs) && ReachesRoot(docs, i, r)
    ensures r < |docs|
    ensures var a := DocsAssigned(groups, idFor, docs);
            && a[i].consensusId == a[r].consensusId && a[i].consensusRootId == docs[r].id
            && a[i].consensusTitle == a[r].consensusTitle
            && a[i].labels == Labels(a[i].consensusId, a[i].consensusRootId)
            && a[r].consensusId == Trim(ChosenId(groups, idFor, docs[r]))
  {
    RootFoundIffReached(docs, i, r);
    AssignedSpec(groups, idFor, docs, i);
    AssignedSpec(groups, idFor, docs, r);
    RootFoundIffReached(docs, r, r);
    assert Ancestor(docs, r, 0) == Some(r);
    hide Existing, Trim, RootFor, Ancestor;
    assert Decode("") == "";
  }

  // An anchor agrees with its document on every id the document has.
  lemma AnchorsFollowTheirDocuments(docs: seq<Document>, anchors: seq<Anchor>, k: nat, d: nat)
    requires k < |anchors| && LastDocument(docs, anchors[k].docId) == Some(d)
    ensures var a := AnchorsAssigned(docs, anchors)[k];
            && a.docId == anchors[k].docId
            && (docs[d].consensusId != "" ==> a.consensusId == docs[d].consensusId == a.labels.consensusId)
            && (docs[d].consensusRootId != "" ==> a.consensusRootId == docs[d].consensusRootId == a.labels.rootId)
  {
  }

  lemma {:induction false} FirstOfEachSpec(groups: seq<Group>)
    ensures var f := FirstOfEach(groups);
            && (forall a, b | 0 <= a < b < |f| :: f[a].id != f[b].id)
            && (forall a | 0 <= a < |f| :: f[a].id != "" && f[a] in groups)
            && (forall k | 0 <= k < |groups| && groups[k].id != "" :: HasGroup(f, groups[k].id))
  {
    if groups != [] {
      var init, g := groups[..|groups| - 1], groups[|groups| - 1];
      FirstOfEachSpec(init);
      var before, f := FirstOfEach(init), FirstOfEach(groups);
      forall k | 0 <= k < |groups| && groups[k].id != "" ensures HasGroup(f, groups[k].id) {
        if k < |init| {
          assert init[k] == groups[k];
          var m :| 0 <= m < |before| && before[m].id == groups[k].id;
          assert f[m] == before[m];
        } else if !HasGroup(before, g.id) {
          assert f[|before|] == g;
        }
      }
    }
  }

  ghost predicate LastAt(pushed: seq<Group>, id: string, k: nat) {
    k < |pushed| && pushed[k].id == id && forall m | k < m < |pushed| :: pushed[m].id != id
  }

  lemma {:induction false} LastPushedSpec(pushed: seq<Group>, id: string)
    ensures match LastPushed(pushed, id)
            case None => !HasGroup(pushed, id)
            case Some(root) =>
              exists k: nat :: LastAt(pushed, id, k) && pushed[k].rootDocId == root
  {
    if pushed != [] {
      var init := pushed[..|pushed| - 1];
      if pushed[|pushed| - 1].id == id {
        assert LastAt(pushed, id, |pushed| - 1);
      } else {
        LastPushedSpec(init, id);
        assert forall k | 0 <= k < |init| :: init[k] == pushed[k];
        if LastPushed(init, id).Some? {
          var k: nat :| LastAt(init, id, k) && init[k].rootDocId == LastPushed(init, id).value;
          assert LastAt(pushed, id, k);
        }
      }
    }
  }

  lemma GroupsOfFirsts(docs: seq<Document>, order: seq<nat>)
    requires ListsRoots(docs, order)
    ensures var pushed, g := Pushed(docs, order), GroupsAssigned(docs, order);
            var f := FirstOfEach(pushed);
            |g| == |f| && forall a | 0 <= a < |f| :: g[a] == WithRoot(pushed, f[a]) && g[a].id == f[a].id
  {
    hide FirstOfEach, LastPushed;
  }

  lemma GroupIds(docs: seq<Document>, order: seq<nat>, id: string)
    requires ListsRoots(docs, order)
    ensures HasGroup(GroupsAssigned(docs, order), id) <==>
            id != "" && exists k :: 0 <= k < |order| && docs[order[k]].consensusId == id
  {
    var pushed := Pushed(docs, order);
    var f, g := FirstOfEach(pushed), GroupsAssigned(docs, order);
    hide FirstOfEach, LastPushed, GroupsAssigned;
    FirstOfEachSpec(pushed);
    GroupsOfFirsts(docs, order);
    if HasGroup(g, id) {
      var a :| 0 <= a < |g| && g[a].id == id;
      assert f[a] in pushed;
      var k :| 0 <= k < |pushed| && pushed[k] == f[a];
      assert docs[order[k]].consensusId == id;
    }
    if k :| id != "" && 0 <= k < |order| && docs[order[k]].consensusId == id {
      assert pushed[k].id == id;
      assert HasGroup(f, pushed[k].id);
      var a :| 0 <= a < |f| && f[a].id == id;
      assert g[a].id == id;
    }
  }

  // Position k holds the last of the roots, in sorted order, that carry g's id.
  ghost predicate LastCarrier(docs: seq<Document>, order: seq<nat>, g: Group, k: nat)
    requires ListsRoots(docs, order) && k < |order|
  {
    && docs[order[k]].consensusId == g.id && docs[order[k]].id == g.rootDocId
    && forall m | k < m < |order| :: docs[order[m]].consensusId != g.id
  }

  ghost predicate RootIsLastCarrier(docs: seq<Document>, order: seq<nat>, g: Group)
    requires ListsRoots(docs, order)
  {
    exists k: nat :: k < |order| && LastCarrier(docs, order, g, k)
  }

  lemma GroupRoot(docs: seq<Document>, order: seq<nat>, a: nat)
    requires ListsRoots(docs, order) && a < |GroupsAssigned(docs, order)|
    requires forall k | 0 <= k < |order| :: docs[order[k]].id != ""
    ensures RootIsLastCarrier(docs, order, GroupsAssigned(docs, order)[a])
  {
    hide FirstOfEach, LastPushed, GroupsAssigned;
    var pushed := Pushed(docs, order);
    FirstOfEachSpec(pushed);
    GroupsOfFirsts(docs, order);
    var f := FirstOfEach(pushed)[a];
    LastPushedSpec(pushed, f.id);
    assert f in pushed;
    var i :| 0 <= i < |pushed| && pushed[i] == f;
    assert pushed[i].id == f.id;
    assert HasGroup(pushed, f.id);
    var k: nat :| LastAt(pushed, f.id, k) && pushed[k].rootDocId == LastPushed(pushed, f.id).value;
    forall m | k < m < |order| ensures docs[order[m]].consensusId != f.id { assert pushed[m].id != f.id; }
    assert LastCarrier(docs, order, WithRoot(pushed, f), k);
  }

  // One group per consensus id of the roots, no two with one id, each naming a
  // root that carries its id: the last such root in sorted order.
  lemma GroupsAreDistinct(docs: seq<Document>, order: seq<nat>)
    requires ListsRoots(docs, order)
    requires forall k | 0 <= k < |order| :: docs[order[k]].id != ""
    ensures var g := GroupsAssigned(docs, order);
            && (forall a, b | 0 <= a < b < |g| :: g[a].id != g[b].id)
            && (forall id: string :: HasGroup(g, id) <==>
                  id != "" && exists k :: 0 <= k < |order| && docs[order[k]].consensusId == id)
            && (forall a | 0 <= a < |g| :: RootIsLastCarrier(docs, order, g[a]))
  {
    hide GroupsAssigned, FirstOfEach, HasGroup, RootIsLastCarrier;
    var g := GroupsAssigned(docs, order);
    GroupsOfFirsts(docs, order);
    FirstOfEachSpec(Pushed(docs, order));
    forall a, b | 0 <= a < b < |g| ensures g[a].id != g[b].id {
      var f := FirstOfEach(Pushed(docs, order));
      assert g[a].id == f[a].id && g[b].id == f[b].id;
    }
    forall id: string ensures HasGroup(g, id) <==>
      id != "" && exists k :: 0 <= k < |order| && docs[order[k]].consensusId == id
    {
      GroupIds(docs, order, id);
    }
    forall a | 0 <= a < |g| ensures RootIsLastCarrier(docs, order, g[a]) { GroupRoot(docs, order, a); }
  }
}
