// Running ensureConsensusAssignments of server/knowledge-space.js again on what a
// run left: every normalization of a space does it.
module KnowledgeConsensusRuns {
  import opened Text
  import opened Wrappers
  import opened KnowledgeMarkdown
  import opened KnowledgeConsensus

  // ------------------------------------------------------------- a second run

  // What a second run needs of a root: it has a consensus id, and if it has no
  // title of its own its group's title decodes to the one it was given.
  predicate Keeps(groups: seq<Group>, root: Document) {
    && root.consensusId != ""
    && (root.title == "" ==> root.consensusTitle == Decode(Or(ExistingTitle(groups, root), "Consensus")))
  }

  predicate Settled(a: seq<Document>, groups: seq<Group>) {
    forall i | 0 <= i < |a| ::
      if a[i].parentId == "" then Keeps(groups, a[i]) else a[i].consensusId != ""
  }

  ghost predicate UsableGroups(groups: seq<Group>) {
    forall k | 0 <= k < |groups| && groups[k].id != "" :: !Blank(groups[k].id)
  }

  lemma {:induction false} ExistingIsUsable(groups: seq<Group>, root: Document)
    requires UsableGroups(groups)
    ensures Existing(groups, root).Some? ==> !Blank(Existing(groups, root).value.id)
  {
    LookupsAreUsable(groups, root.id);
    LookupsAreUsable(groups, root.consensusId);
  }

  lemma {:induction false} LookupsAreUsable(groups: seq<Group>, id: string)
    requires UsableGroups(groups)
    ensures LastGroupById(groups, id).Some? ==> !Blank(LastGroupById(groups, id).value.id)
    ensures LastGroupByRoot(groups, id).Some? ==> !Blank(LastGroupByRoot(groups, id).value.id)
  {
    hide Blank;
    if groups != [] { LookupsAreUsable(groups[..|groups| - 1], id); }
  }

  ghost predicate UsableIdFor(idFor: string -> string) {
    forall title: string :: !Blank(idFor(title))
  }

  // What one run leaves at every position.
  ghost predicate Assigned(a: seq<Document>, i: nat)
    requires i < |a|
  {
    && Trim(a[i].consensusId) == a[i].consensusId
    && (match RootFor(a, i)
        case None => a[i].parentId != "" && a[i].consensusRootId == Or(a[i].consensusRootId, a[i].id)
                     && a[i].consensusTitle == Or(a[i].consensusTitle, Decode(a[i].title))
        case Some(r) => a[i] == Rooted(a[i], a[r]) && a[r].consensusRootId == a[r].id
                        && a[r].labels == Labels(a[r].consensusId, a[r].id)
                        && (a[r].title != "" ==> a[r].consensusTitle == Decode(a[r].title)))
  }

  lemma RunLeavesAssigned(groups: seq<Group>, idFor: string -> string, docs: seq<Document>, i: nat)
    requires i < |docs|
    ensures Assigned(DocsAssigned(groups, idFor, docs), i)
  {
    AssignedSpec(groups, idFor, docs, i);
    var root := RootFor(docs, i);
    if root.Some? {
      TrimIsTrimmed(ChosenId(groups, idFor, docs[root.value]));
    } else {
      TrimIsTrimmed(Or(docs[i].consensusId, idFor(Or(docs[i].title, docs[i].id))));
    }
    hide Existing, Trim, Trimmed, RootFor, Decode;
  }

  // A further run leaves no document without a consensus id.
  lemma NextRunGivesIds(next: seq<Group>, idFor: string -> string, a: seq<Document>, i: nat)
    requires i < |a| && Assigned(a, i) && UsableIdFor(idFor) && UsableGroups(next)
    requires forall r: nat | r < |a| :: Assigned(a, r)
    ensures DocsAssigned(next, idFor, a)[i].consensusId != ""
  {
    AssignedSpec(next, idFor, a, i);
    var top := RootFor(a, i);
    var r := if top.Some? then top.value else i;
    assert !Blank(idFor(Or(a[r].title, a[r].id)));
    assert Assigned(a, r);
    ExistingIsUsable(next, a[r]);
    hide Existing, RootFor, Decode;
    assert Trim("") == "";
    hide Trim;
  }

  lemma NextRunOfRoot(next: seq<Group>, idFor: string -> string, a: seq<Document>, r: nat)
    requires r < |a| && Assigned(a, r) && a[r].parentId == "" && a[r].consensusId != ""
    ensures var b := DocsAssigned(next, idFor, a);
            RootFor(a, r) == Some(r) && b[r] == RootAssigned(next, idFor, a[r]) && (b[r] == a[r] <==> Keeps(next, a[r]))
  {
    assert RootFor(a, r) == Some(r);
    AssignedSpec(next, idFor, a, r);
    hide Existing, Trim, RootFor, Decode;
  }

  lemma NextRunBelow(next: seq<Group>, idFor: string -> string, a: seq<Document>, i: nat)
    requires i < |a| && Assigned(a, i) && a[i].consensusId != ""
    requires match RootFor(a, i) case None => true case Some(r) => DocsAssigned(next, idFor, a)[r] == a[r]
    ensures DocsAssigned(next, idFor, a)[i] == a[i]
  {
    AssignedSpec(next, idFor, a, i);
    hide Existing, Trim, RootFor, Decode, RootAssigned;
  }

  lemma {:induction false} GroupsAreUsable(docs: seq<Document>, order: seq<nat>)
    requires ListsRoots(docs, order) && forall i: nat | i < |docs| :: Assigned(docs, i)
    ensures UsableGroups(GroupsAssigned(docs, order))
  {
    var g := GroupsAssigned(docs, order);
    hide GroupsAssigned;
    forall a | 0 <= a < |g| && g[a].id != "" ensures !Blank(g[a].id) {
      GroupIds(docs, order, g[a].id);
      assert HasGroup(g, g[a].id);
      var k :| 0 <= k < |order| && docs[order[k]].consensusId == g[a].id;
      assert Assigned(docs, order[k]);
    }
  }

  lemma IdleIffSettled(groups: seq<Group>, idFor: string -> string, docs: seq<Document>, order: seq<nat>)
    requires ListsRoots(docs, order) && UsableIdFor(idFor)
    ensures var a := DocsAssigned(groups, idFor, docs);
            ListsRoots(a, order) &&
            (DocsAssigned(GroupsAssigned(a, order), idFor, a) == a <==> Settled(a, GroupsAssigned(a, order)))
  {
    var a := DocsAssigned(groups, idFor, docs);
    assert SameLinks(docs, a);
    assert ListsRoots(a, order);
    forall i: nat | i < |a| ensures Assigned(a, i) { RunLeavesAssigned(groups, idFor, docs, i); }
    var next := GroupsAssigned(a, order);
    GroupsAreUsable(a, order);
    hide Assigned, DocsAssigned, GroupsAssigned, ListsRoots, SameLinks, UsableGroups, UsableIdFor, RootFor, Keeps,
         RootAssigned;
    var b := DocsAssigned(next, idFor, a);
    assert |b| == |a|;
    if b == a {
      forall i: nat | i < |a| ensures if a[i].parentId == "" then Keeps(next, a[i]) else a[i].consensusId != "" {
        NextRunGivesIds(next, idFor, a, i);
        if a[i].parentId == "" { NextRunOfRoot(next, idFor, a, i); }
      }
    }
    if Settled(a, next) {
      forall i: nat | i < |a| ensures a[i].consensusId != "" { KeepsHasId(next, a[i]); }
      forall i: nat | i < |a| ensures b[i] == a[i] {
        var top := RootFor(a, i);
        if top.Some? { NextRunOfRoot(next, idFor, a, top.value); }
        NextRunBelow(next, idFor, a, i);
      }
    }
  }

  lemma KeepsHasId(groups: seq<Group>, root: Document)
    ensures Keeps(groups, root) ==> root.consensusId != ""
  {
  }

  // -------------------------------------------- the condition on the input

  // The position in the sorted roots of the first one that gets this id.
  function FirstCarrier(groups: seq<Group>, idFor: string -> string, docs: seq<Document>, order: seq<nat>,
                        id: string): (k: nat)
    requires forall m | 0 <= m < |order| :: order[m] < |docs|
    ensures k <= |order|
  {
    if order == [] || Trim(ChosenId(groups, idFor, docs[order[0]])) == id then 0
    else 1 + FirstCarrier(groups, idFor, docs, order[1..], id)
  }

  // The first root with an untitled root's id has a title that decodes to the
  // one the untitled root is given.
  predicate KeepsTitle(groups: seq<Group>, idFor: string -> string, docs: seq<Document>, order: seq<nat>, r: nat)
    requires r < |docs| && forall m | 0 <= m < |order| :: order[m] < |docs|
  {
    var k := FirstCarrier(groups, idFor, docs, order, Trim(ChosenId(groups, idFor, docs[r])));
    docs[r].title != "" || k == |order| || GivenTitle(groups, docs[r]) == Decode(GivenTitle(groups, docs[order[k]]))
  }

  // Every id that is chosen holds text, and untitled roots keep their titles.
  predicate Steady(groups: seq<Group>, idFor: string -> string, docs: seq<Document>, order: seq<nat>)
    requires forall m | 0 <= m < |order| :: order[m] < |docs|
  {
    forall i: nat | i < |docs| ::
      if docs[i].parentId == "" then
        !Blank(ChosenId(groups, idFor, docs[i])) && KeepsTitle(groups, idFor, docs, order, i)
      else RootFor(docs, i).Some? || !Blank(Or(docs[i].consensusId, idFor(Or(docs[i].title, docs[i].id))))
  }

  lemma {:induction false} FirstCarrierSpec(groups: seq<Group>, idFor: string -> string, docs: seq<Document>,
                                            order: seq<nat>, id: string)
    requires forall m | 0 <= m < |order| :: order[m] < |docs|
    ensures var k := FirstCarrier(groups, idFor, docs, order, id);
            && (k < |order| ==> Trim(ChosenId(groups, idFor, docs[order[k]])) == id)
            && forall m | 0 <= m < k :: Trim(ChosenId(groups, idFor, docs[order[m]])) != id
  {
    hide ChosenId, Trim;
    if order != [] && Trim(ChosenId(groups, idFor, docs[order[0]])) != id {
      FirstCarrierSpec(groups, idFor, docs, order[1..], id);
    }
  }

  // Position k holds the first pushed group with its id.
  ghost predicate FirstAt(pushed: seq<Group>, k: nat) {
    k < |pushed| && forall m | 0 <= m < k :: pushed[m].id != pushed[k].id
  }

  lemma {:induction false} FirstsAreFirst(pushed: seq<Group>, a: nat)
    requires a < |FirstOfEach(pushed)|
    ensures exists k: nat :: FirstAt(pushed, k) && pushed[k] == FirstOfEach(pushed)[a]
    decreases |pushed|
  {
    var init, g := pushed[..|pushed| - 1], pushed[|pushed| - 1];
    var before := FirstOfEach(init);
    FirstOfEachSpec(init);
    hide HasGroup;
    assert forall m | 0 <= m < |init| :: pushed[m] == init[m];
    if a < |before| {
      FirstsAreFirst(init, a);
      var k: nat :| FirstAt(init, k) && init[k] == before[a];
      assert FirstAt(pushed, k) && pushed[k] == init[k];
    } else {
      assert FirstOfEach(pushed) == before + [g] && g.id != "" && !HasGroup(before, g.id);
      hide FirstOfEach;
      forall m | 0 <= m < |init| ensures pushed[m].id != g.id {
        assert init[m].id != "" ==> HasGroup(before, init[m].id);
      }
      assert FirstAt(pushed, |init|);
    }
  }

  lemma {:induction false} LookupsFind(groups: seq<Group>, key: string)
    ensures match LastGroupById(groups, key)
            case None => key == "" || !HasGroup(groups, key)
            case Some(g) => g in groups && g.id == key
    ensures match LastGroupByRoot(groups, key)
            case None => true
            case Some(g) => g in groups && g.rootDocId == key != ""
  {
    if groups != [] {
      var init := groups[..|groups| - 1];
      assert groups == init + [groups[|groups| - 1]];
      LookupsFind(init, key);
      assert forall k | 0 <= k < |init| :: groups[k] == init[k];
    }
  }

  // A group's root id is that of a root which carries the group's id.
  lemma GroupRootCarries(docs: seq<Document>, order: seq<nat>, a: nat) returns (k: nat)
    requires ListsRoots(docs, order) && a < |GroupsAssigned(docs, order)|
    ensures k < |order|
    ensures var g := GroupsAssigned(docs, order)[a];
            docs[order[k]].consensusId == g.id && docs[order[k]].id == g.rootDocId
  {
    hide FirstOfEach, LastPushed, GroupsAssigned;
    var pushed := Pushed(docs, order);
    FirstOfEachSpec(pushed);
    GroupsOfFirsts(docs, order);
    var f := FirstOfEach(pushed)[a];
    LastPushedSpec(pushed, f.id);
    assert f in pushed;
    var i :| 0 <= i < |pushed| && pushed[i] == f;
    assert pushed[i].id == f.id;
    assert HasGroup(pushed, f.id);
    k := i;
    if LastPushed(pushed, f.id).value != "" {
      k :| LastAt(pushed, f.id, k) && pushed[k].rootDocId == LastPushed(pushed, f.id).value;
    }
  }

  lemma FoundIs(docs: seq<Document>, order: seq<nat>, r: nat) returns (a: nat)
    requires ListsRoots(docs, order) && DistinctIds(docs)
    requires r < |docs| && docs[r].parentId == "" && docs[r].consensusId != ""
    ensures a < |GroupsAssigned(docs, order)|
    ensures Existing(GroupsAssigned(docs, order), docs[r]) == Some(GroupsAssigned(docs, order)[a])
    ensures GroupsAssigned(docs, order)[a].id == docs[r].consensusId
  {
    var g := GroupsAssigned(docs, order);
    hide GroupsAssigned, LastGroupById, LastGroupByRoot;
    LookupsFind(g, docs[r].id);
    LookupsFind(g, docs[r].consensusId);
    assert r in order;
    var at :| 0 <= at < |order| && order[at] == r;
    GroupIds(docs, order, docs[r].consensusId);
    var x := Existing(g, docs[r]).value;
    hide HasGroup;
    a :| 0 <= a < |g| && g[a] == x;
    var c := GroupRootCarries(docs, order, a);
    assert docs[order[c]].id == docs[r].id ==> order[c] == r;
  }

  // The second run finds, for a root, the group of its id; its title is that of
  // the first root with that id.
  lemma FoundGroup(docs: seq<Document>, order: seq<nat>, r: nat) returns (k: nat)
    requires ListsRoots(docs, order) && DistinctIds(docs)
    requires r < |docs| && docs[r].parentId == "" && docs[r].consensusId != ""
    ensures k < |order| && docs[order[k]].consensusId == docs[r].consensusId
    ensures forall m | 0 <= m < k :: docs[order[m]].consensusId != docs[r].consensusId
    ensures ExistingTitle(GroupsAssigned(docs, order), docs[r]) == docs[order[k]].consensusTitle
  {
    hide FirstOfEach, LastPushed, GroupsAssigned, Existing, DistinctIds;
    var pushed := Pushed(docs, order);
    var a := FoundIs(docs, order, r);
    GroupsOfFirsts(docs, order);
    FirstsAreFirst(pushed, a);
    k :| FirstAt(pushed, k) && pushed[k] == FirstOfEach(pushed)[a];
    assert forall m | 0 <= m < k :: pushed[m].id == docs[order[m]].consensusId;
  }

  lemma {:induction false} DecodeKeepsText(s: string)
    ensures s != "" ==> Decode(s) != ""
  {
  }

  // What one run gives, in terms of the input.
  lemma GivenByRun(groups: seq<Group>, idFor: string -> string, docs: seq<Document>, i: nat)
    requires i < |docs|
    ensures var a := DocsAssigned(groups, idFor, docs)[i];
            && a.id == docs[i].id && a.parentId == docs[i].parentId && a.title == docs[i].title
            && (docs[i].parentId == "" ==>
                  a.consensusId == Trim(ChosenId(groups, idFor, docs[i])) &&
                      a.consensusTitle == GivenTitle(groups, docs[i]) != "")
            && match RootFor(docs, i)
               case None => docs[i].parentId != "" &&
                   a.consensusId == Trim(Or(docs[i].consensusId, idFor(Or(docs[i].title, docs[i].id))))
               case Some(r) => docs[r].parentId == "" && a.consensusId == Trim(ChosenId(groups, idFor, docs[r]))
  {
    AssignedSpec(groups, idFor, docs, i);
    DecodeKeepsText(Or(Or(docs[i].title, ExistingTitle(groups, docs[i])), "Consensus"));
    if docs[i].parentId == "" { assert RootFor(docs, i) == Some(i); }
    hide Existing, Trim, RootFor, Decode, ExistingId, ExistingTitle;
  }

  // In the second run an untitled root gets the decoded title of the first root
  // with its id.
  lemma SecondTitle(groups: seq<Group>, idFor: string -> string, docs: seq<Document>, order: seq<nat>, r: nat)
    requires ListsRoots(docs, order) && DistinctIds(docs) && r < |docs| && docs[r].parentId == ""
    requires !Blank(ChosenId(groups, idFor, docs[r]))
    ensures var a := DocsAssigned(groups, idFor, docs);
            var k := FirstCarrier(groups, idFor, docs, order, Trim(ChosenId(groups, idFor, docs[r])));
            && ListsRoots(a, order) && k < |order| &&
                a[order[k]].consensusTitle == GivenTitle(groups, docs[order[k]]) != ""
            && ExistingTitle(GroupsAssigned(a, order), a[r]) == GivenTitle(groups, docs[order[k]])
  {
    var a := DocsAssigned(groups, idFor, docs);
    hide DocsAssigned, GroupsAssigned, ChosenId, GivenTitle, Trim, ExistingTitle, RootFor;
    forall i: nat | i < |docs| ensures a[i].id == docs[i].id && a[i].parentId == docs[i].parentId {
      GivenByRun(groups, idFor, docs, i);
    }
    GivenByRun(groups, idFor, docs, r);
    var k := FoundGroup(a, order, r);
    var id := Trim(ChosenId(groups, idFor, docs[r]));
    forall m | 0 <= m < |order| ensures a[order[m]].consensusId == Trim(ChosenId(groups, idFor, docs[order[m]])) {
      GivenByRun(groups, idFor, docs, order[m]);
    }
    FirstCarrierSpec(groups, idFor, docs, order, id);
    GivenByRun(groups, idFor, docs, order[k]);
    assert k == FirstCarrier(groups, idFor, docs, order, id);
  }

  lemma TitlesKeptIff(groups: seq<Group>, idFor: string -> string, docs: seq<Document>, order: seq<nat>, r: nat)
    requires ListsRoots(docs, order) && DistinctIds(docs) && r < |docs| && docs[r].parentId == ""
    requires !Blank(ChosenId(groups, idFor, docs[r]))
    ensures var a := DocsAssigned(groups, idFor, docs);
            ListsRoots(a, order) &&
                (Keeps(GroupsAssigned(a, order), a[r]) <==> KeepsTitle(groups, idFor, docs, order, r))
  {
    hide DocsAssigned, GroupsAssigned, ChosenId, GivenTitle, Trim, ExistingTitle, RootFor, ListsRoots, DistinctIds,
         FirstCarrier;
    SecondTitle(groups, idFor, docs, order, r);
    GivenByRun(groups, idFor, docs, r);
  }

  // Running again on what a run left changes no document exactly when every id
  // chosen in the first run holds text and, for each untitled root, the first
  // root with its id is given a title that decodes to the untitled root's own.
  lemma SecondRunIsIdleIff(groups: seq<Group>, idFor: string -> string, docs: seq<Document>, order: seq<nat>)
    requires ListsRoots(docs, order) && UsableIdFor(idFor) && DistinctIds(docs)
    ensures var a := DocsAssigned(groups, idFor, docs);
            ListsRoots(a, order) &&
            (DocsAssigned(GroupsAssigned(a, order), idFor, a) == a <==> Steady(groups, idFor, docs, order))
  {
    var a := DocsAssigned(groups, idFor, docs);
    IdleIffSettled(groups, idFor, docs, order);
    var next := GroupsAssigned(a, order);
    hide DocsAssigned, GroupsAssigned, ChosenId, Trim, RootFor, Keeps, KeepsTitle, ListsRoots;
    forall i: nat | i < |docs|
      ensures a[i].parentId == "" && docs[i].parentId == "" ==>
        (Keeps(next, a[i]) <==> !Blank(ChosenId(groups, idFor, docs[i])) && KeepsTitle(groups, idFor, docs, order, i))
      ensures a[i].parentId == docs[i].parentId
    {
      GivenByRun(groups, idFor, docs, i);
      KeepsHasId(next, a[i]);
      if docs[i].parentId == "" && !Blank(ChosenId(groups, idFor, docs[i])) {
        TitlesKeptIff(groups, idFor, docs, order, i);
      }
    }
    if Steady(groups, idFor, docs, order) {
      forall i: nat | i < |a| ensures if a[i].parentId == "" then Keeps(next, a[i]) else a[i].consensusId != "" {
        GivenByRun(groups, idFor, docs, i);
      }
    }
    if Settled(a, next) {
      forall i: nat | i < |docs| && docs[i].parentId != ""
        ensures RootFor(docs, i).Some? || !Blank(Or(docs[i].consensusId, idFor(Or(docs[i].title, docs[i].id))))
      {
        GivenByRun(groups, idFor, docs, i);
      }
    }
  }

  function TwoRoots(): seq<Document> {
    [Document("a", "", "X", "c", "", "", Labels("", "")), Document("b", "", "", "c", "", "", Labels("", ""))]
  }

  lemma TwoRootsListed()
    ensures ListsRoots(TwoRoots(), [0, 1]) && DistinctIds(TwoRoots())
  {
    var docs := TwoRoots();
    assert docs[0].id[0] == 'a' && docs[1].id[0] == 'b';
  }

  lemma TwoRootsGiven(idFor: string -> string)
    ensures var docs := TwoRoots();
            && |docs| == 2 && docs[1].parentId == "" && docs[1].title == "" && Trim("c") == "c"
            && (forall i | 0 <= i < 2 :: ChosenId([], idFor, docs[i]) == "c")
            && GivenTitle([], docs[0]) == "X" && GivenTitle([], docs[1]) == "Consensus"
  {
    PlainTitles();
    TrimFixed("c");
    var docs := TwoRoots();
    hide Trim, Decode, ExistingId, ExistingTitle;
    NoGroups(docs[0]);
    NoGroups(docs[1]);
  }

  lemma NoGroups(root: Document)
    ensures ExistingId([], root) == "" && ExistingTitle([], root) == ""
  {
  }

  // Two roots with one id, the second untitled: it takes the first one's title.
  lemma UntitledRootIsRenamed(idFor: string -> string)
    ensures var a := DocsAssigned([], idFor, TwoRoots());
            && |a| == |TwoRoots()| == 2 && ListsRoots(a, [0, 1])
            && a[1].consensusTitle == "Consensus"
            && DocsAssigned(GroupsAssigned(a, [0, 1]), idFor, a)[1].consensusTitle == "X"
  {
    hide TwoRoots, DocsAssigned, GroupsAssigned, Trim, Decode, RootFor, ChosenId, GivenTitle, ListsRoots;
    var docs, order: seq<nat> := TwoRoots(), [0, 1];
    TwoRootsListed();
    TwoRootsGiven(idFor);
    FirstOfTwo(docs, idFor);
    GivenByRun([], idFor, docs, 1);
    SecondTitle([], idFor, docs, order, 1);
    var a := DocsAssigned([], idFor, docs);
    TitleInRun(GroupsAssigned(a, order), idFor, a, 1);
    PlainTitles();
  }

  lemma FirstOfTwo(docs: seq<Document>, idFor: string -> string)
    requires |docs| == 2 && Trim(ChosenId([], idFor, docs[0])) == "c"
    ensures FirstCarrier([], idFor, docs, [0, 1], "c") == 0
  {
    hide Trim, ChosenId;
  }

  // A run gives an untitled root the decoded title of its group.
  lemma TitleInRun(groups: seq<Group>, idFor: string -> string, docs: seq<Document>, r: nat)
    requires r < |docs| && docs[r].parentId == "" && docs[r].title == "" && ExistingTitle(groups, docs[r]) != ""
    ensures DocsAssigned(groups, idFor, docs)[r].consensusTitle == Decode(ExistingTitle(groups, docs[r]))
  {
    hide DocsAssigned, RootFor, ExistingTitle, Decode;
    GivenByRun(groups, idFor, docs, r);
  }

  lemma PlainTitles()
    ensures Decode("Consensus") == "Consensus" && Decode("X") == "X"
  {
    DecodeFixed("Consensus");
    DecodeFixed("X");
  }

  lemma {:induction false} DecodeFixed(s: string)
    requires '\\' !in s
    ensures Decode(s) == s
  {
    if s != "" { DecodeFixed(s[1..]); }
  }

  // Then the second run leaves the anchors alone too.
  lemma AnchorsAreIdle(docs: seq<Document>, anchors: seq<Anchor>)
    ensures AnchorsAssigned(docs, AnchorsAssigned(docs, anchors)) == AnchorsAssigned(docs, anchors)
  {
    hide LastDocument;
  }

  // In terms of the input: ids that are missing or hold text, and titled roots.
  lemma SecondRunIsIdle(groups: seq<Group>, idFor: string -> string, docs: seq<Document>, anchors: seq<Anchor>,
                        order: seq<nat>)
    requires ListsRoots(docs, order) && UsableIdFor(idFor) && UsableGroups(groups)
    requires forall i | 0 <= i < |docs| :: docs[i].consensusId == "" || !Blank(docs[i].consensusId)
    requires forall i | 0 <= i < |docs| && docs[i].parentId == "" :: docs[i].title != ""
    ensures var a := DocsAssigned(groups, idFor, docs);
            var marks := AnchorsAssigned(a, anchors);
            && ListsRoots(a, order)
            && DocsAssigned(GroupsAssigned(a, order), idFor, a) == a
            && AnchorsAssigned(a, marks) == marks
  {
    var a := DocsAssigned(groups, idFor, docs);
    IdleIffSettled(groups, idFor, docs, order);
    AnchorsAreIdle(a, anchors);
    forall i: nat | i < |a|
      ensures if a[i].parentId == "" then Keeps(GroupsAssigned(a, order), a[i]) else a[i].consensusId != ""
    {
      FirstRunGivesId(groups, idFor, docs, i);
    }
  }

  lemma FirstRunGivesId(groups: seq<Group>, idFor: string -> string, docs: seq<Document>, i: nat)
    requires i < |docs| && UsableIdFor(idFor) && UsableGroups(groups)
    requires forall j | 0 <= j < |docs| :: docs[j].consensusId == "" || !Blank(docs[j].consensusId)
    ensures var a := DocsAssigned(groups, idFor, docs);
            a[i].consensusId != "" && a[i].parentId == docs[i].parentId && a[i].title == docs[i].title
  {
    AssignedSpec(groups, idFor, docs, i);
    var top := RootFor(docs, i);
    var r := if top.Some? then top.value else i;
    assert !Blank(idFor(Or(docs[r].title, docs[r].id)));
    ExistingIsUsable(groups, docs[r]);
    hide Existing, RootFor, Decode;
    assert Trim("") == "";
    hide Trim;
  }

  // A blank id is where it fails: the first run trims it to nothing and the
  // second one invents an id.
  lemma BlankIdIsReplaced(idFor: string -> string)
    requires UsableIdFor(idFor)
    ensures var docs := [Document("d", "", "T", " ", "", "", Labels("", ""))];
            var a := DocsAssigned([], idFor, docs);
            && a[0].consensusId == ""
            && DocsAssigned(GroupsAssigned(a, [0]), idFor, a)[0].consensusId == Trim(idFor("T")) != ""
  {
    var docs := [Document("d", "", "T", " ", "", "", Labels("", ""))];
    var a := DocsAssigned([], idFor, docs);
    AssignedSpec([], idFor, docs, 0);
    assert Trim(" ") == "" by { assert " "[1..] == ""; }
    assert !Blank(idFor("T"));
    var next := GroupsAssigned(a, [0]);
    var pushed := Pushed(a, [0]);
    assert pushed[..0] == [];
    assert FirstOfEach(pushed) == [];
    assert next == [];
    AssignedSpec(next, idFor, a, 0);
  }
}
