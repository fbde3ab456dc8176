// The stored conversation references of server/conversation-references.js. An
// empty string stands for a field the source deletes or finds missing.
module ConversationReferences {
  import opened Text
  import opened Wrappers

  const RECORDS_PER_REFERENCE := 50
  const REFERENCES_PER_MESSAGE := 12
  const SELECTED_TEXT_CHARS := 4000
  const PREVIEW_CHARS := 1200
  const NAME_CHARS := 120

  datatype Kind = Message | Selection | Thread | Conversation
  datatype Mode = Quote | Context
  datatype SourceKind = NoSource | FromMessage | FromReply

  // A reference as it arrives. A sequence of strings holds the values under the
  // alternative names of one field, in the order the source tries them;
  // recordIds is the first present of its three names.
  datatype Raw = Raw(
    id: string, kind: string, mode: string, sourceRecordIds: seq<string>, sourceKind: string,
    parentMessageId: string, spaceType: string, spaceId: string, authorType: string, authorId: string,
    authorName: string, createdAt: string, previews: seq<string>, texts: seq<string>,
    recordIds: seq<string>, truncated: bool)

  datatype Reference = Reference(
    id: string, kind: Kind, mode: Mode, sourceRecordId: string, sourceKind: SourceKind,
    parentMessageId: string, spaceType: string, spaceId: string, authorType: string, authorId: string,
    authorName: string, createdAt: string, bodyPreview: string, selectedText: string,
    recordIds: seq<string>, truncated: bool)

  // ------------------------------------------------------------ cleaning

  function CleanString(value: string, limit: nat): string {
    var text := Trim(NormalizeNewline(value));
    if limit == 0 || |text| <= limit then text
    else TrimEnd(text[..limit - 1]) + "\U{2026}"
  }

  function FirstOf(values: seq<string>): string {
    if values == [] then "" else if values[0] != "" then values[0] else FirstOf(values[1..])
  }

  // The trimmed, non-empty values, each at its first occurrence.
  function DistinctIds(values: seq<string>): seq<string> {
    if values == [] then []
    else
      var ids := DistinctIds(values[..|values| - 1]);
      var id := Trim(values[|values| - 1]);
      if id == "" || id in ids then ids else ids + [id]
  }

  function First<T>(s: seq<T>, n: nat): seq<T> {
    if |s| <= n then s else s[..n]
  }

  function Last<T>(s: seq<T>, n: nat): seq<T> {
    if |s| <= n then s else s[|s| - n..]
  }

  lemma {:induction false} DistinctIdsGrow(values: seq<string>, i: nat)
    requires i <= |values|
    ensures DistinctIds(values[..i]) <= DistinctIds(values)
    decreases |values| - i
  {
    if i == |values| {
      assert values[..i] == values;
    } else {
      TakeNext(values, i);
      assert values[..i + 1][..i] == values[..i];
      DistinctIdsGrow(values, i + 1);
    }
  }

  // cleanIds: the loop stops as soon as the limit is reached.
  method CleanIds(values: seq<string>) returns (ids: seq<string>)
    ensures ids == First(DistinctIds(values), RECORDS_PER_REFERENCE)
  {
    ids := [];
    var seen: set<string> := {};
    for i := 0 to |values|
      invariant ids == DistinctIds(values[..i]) && |ids| < RECORDS_PER_REFERENCE
      invariant forall id :: id in seen <==> id in ids
    {
      TakeNext(values, i);
      assert values[..i + 1][..i] == values[..i];
      var id := Trim(values[i]);
      if id == "" || id in seen { continue; }
      seen := seen + {id};
      ids := ids + [id];
      if |ids| >= RECORDS_PER_REFERENCE {
        DistinctIdsGrow(values, i + 1);
        break;
      }
    }
    assert values[..|values|] == values;
  }

  // ------------------------------------------------------- normalization

  function NormalizedMode(value: string): Mode {
    if ToLower(CleanString(value, 0)) == "quote" then Quote else Context
  }

  function NormalizedKind(value: string): Kind {
    var kind := ToLower(CleanString(value, 0));
    if kind == "selection" then Selection
    else if kind == "thread" then Thread
    else if kind == "conversation" then Conversation
    else Message
  }

  function NormalizedSourceKind(value: string, fallback: string): SourceKind {
    var kind := ToLower(CleanString(if value != "" then value else fallback, 0));
    if kind == "message" then FromMessage else if kind == "reply" then FromReply else NoSource
  }

  function KindName(kind: Kind): string {
    match kind
    case Message => "message"
    case Selection => "selection"
    case Thread => "thread"
    case Conversation => "conversation"
  }

  function ModeName(mode: Mode): string {
    if mode == Quote then "quote" else "context"
  }

  function SourceName(kind: SourceKind): string {
    match kind
    case NoSource => ""
    case FromMessage => "message"
    case FromReply => "reply"
  }

  // normalizedReference; fallbackId is what makeId or the index yields.
  function NormalizedReference(raw: Raw, fallbackId: string): Option<Reference> {
    var kind := NormalizedKind(raw.kind);
    var sourceRecordId := Trim(FirstOf(raw.sourceRecordIds));
    var selectedText := CleanString(FirstOf(raw.texts), SELECTED_TEXT_CHARS);
    if kind == Selection && selectedText == "" then None
    else if (kind == Message || kind == Selection) && sourceRecordId == "" then None
    else Some(Reference(
      if Trim(raw.id) != "" then Trim(raw.id) else fallbackId,
      kind,
      NormalizedMode(raw.mode),
      sourceRecordId,
      NormalizedSourceKind(raw.sourceKind, if raw.parentMessageId != "" then "reply" else ""),
      Trim(raw.parentMessageId),
      ToLower(CleanString(raw.spaceType, 0)),
      Trim(raw.spaceId),
      ToLower(CleanString(raw.authorType, 0)),
      Trim(raw.authorId),
      CleanString(raw.authorName, NAME_CHARS),
      CleanString(raw.createdAt, 0),
      CleanString(FirstOf(raw.previews), PREVIEW_CHARS),
      selectedText,
      First(DistinctIds(raw.recordIds), RECORDS_PER_REFERENCE),
      raw.truncated))
  }

  // A stored reference read back as input.
  function Stored(r: Reference): Raw {
    Raw(r.id, KindName(r.kind), ModeName(r.mode), [r.sourceRecordId], SourceName(r.sourceKind), r.parentMessageId,
        r.spaceType, r.spaceId, r.authorType, r.authorId, r.authorName, r.createdAt,
        [r.bodyPreview], [r.selectedText], r.recordIds, r.truncated)
  }

  // --------------------------------------------------------------- merge

  function ConflictIds(r: Reference): set<string> {
    match r.kind
    case Conversation => {}
    case Thread => (set id | id in r.recordIds + [r.sourceRecordId, r.parentMessageId] && id != "")
    case _ => if r.sourceRecordId == "" then {} else {r.sourceRecordId}
  }

  function Signature(r: Reference): string {
    JoinWith([KindName(r.kind), r.sourceRecordId, r.spaceType, r.spaceId, JoinWith(r.recordIds, ",")], ":")
  }

  predicate Conflict(existing: Reference, incoming: Reference) {
    if existing.kind == Conversation || incoming.kind == Conversation then
      existing.kind == incoming.kind && Signature(existing) == Signature(incoming)
    else
      exists id :: id in ConflictIds(incoming) && id in ConflictIds(existing)
  }

  // What is left of a list once everything conflicting with r is spliced out.
  function Without(refs: seq<Reference>, r: Reference): seq<Reference> {
    if refs == [] then []
    else (if Conflict(refs[0], r) then [] else [refs[0]]) + Without(refs[1..], r)
  }

  function Merged(refs: seq<Reference>): seq<Reference> {
    if refs == [] then []
    else Without(Merged(refs[..|refs| - 1]), refs[|refs| - 1]) + [refs[|refs| - 1]]
  }

  method MergeConversationReferencesBySource(references: seq<Reference>) returns (merged: seq<Reference>)
    ensures merged == Merged(references)
  {
    hide Conflict;
    merged := [];
    for i := 0 to |references|
      invariant merged == Merged(references[..i])
    {
      var reference := references[i];
      var before := merged;
      var index := |merged|;
      assert merged == before[..index] + Without(before[index..], reference);
      while index > 0
        invariant index <= |before|
        invariant merged == before[..index] + Without(before[index..], reference)
      {
        index := index - 1;
        assert merged == before[..index] + [before[index]] + Without(before[index + 1..], reference) by {
          TakeNext(before, index);
        }
        assert before[index..][1..] == before[index + 1..];
        if Conflict(merged[index], reference) {
          merged := merged[..index] + merged[index + 1..];
        }
      }
      merged := merged + [reference];
      TakeNext(references, i);
      assert references[..i + 1][..i] == references[..i] && before[0..] == before;
    }
    assert references[..|references|] == references;
  }

  function NormalizedAll(raws: seq<Raw>, fallbackIds: seq<string>): seq<Reference>
    requires |raws| == |fallbackIds|
  {
    if raws == [] then []
    else
      (match NormalizedReference(raws[0], fallbackIds[0]) case None => [] case Some(r) => [r])
      + NormalizedAll(raws[1..], fallbackIds[1..])
  }

  // normalizeStoredConversationReferences
  function NormalizedList(raws: seq<Raw>, fallbackIds: seq<string>): seq<Reference>
    requires |raws| == |fallbackIds|
  {
    Last(Merged(NormalizedAll(raws, fallbackIds)), REFERENCES_PER_MESSAGE)
  }

  function StoredAll(refs: seq<Reference>): (r: seq<Raw>)
    ensures |r| == |refs|
  {
    if refs == [] then [] else [Stored(refs[0])] + StoredAll(refs[1..])
  }

  // -------------------------------------------------- what the merge keeps

  predicate LaterConflict(refs: seq<Reference>, i: nat)
    requires i < |refs|
  {
    exists j :: i < j < |refs| && Conflict(refs[i], refs[j])
  }

  // The indices, from i on, that no later item conflicts with.
  function Kept(refs: seq<Reference>, i: nat): seq<nat>
    requires i <= |refs|
    decreases |refs| - i
  {
    if i == |refs| then [] else (if LaterConflict(refs, i) then [] else [i]) + Kept(refs, i + 1)
  }

  lemma {:induction false} KeptSpec(refs: seq<Reference>, i: nat)
    requires i <= |refs|
    ensures forall k: nat :: k in Kept(refs, i) <==> i <= k < |refs| && !LaterConflict(refs, k)
    ensures forall a, b | 0 <= a < b < |Kept(refs, i)| :: Kept(refs, i)[a] < Kept(refs, i)[b]
    decreases |refs| - i
  {
    if i < |refs| {
      hide LaterConflict;
      KeptSpec(refs, i + 1);
      var rest := Kept(refs, i + 1);
      assert forall a | 0 <= a < |rest| :: rest[a] in rest;
    }
  }

  function At(refs: seq<Reference>, indices: seq<nat>): seq<Reference>
    requires forall a | 0 <= a < |indices| :: indices[a] < |refs|
  {
    if indices == [] then [] else [refs[indices[0]]] + At(refs, indices[1..])
  }

  // The same keep rule read from the front of the list.
  function Survivors(refs: seq<Reference>): seq<Reference> {
    if refs == [] then []
    else (if LaterConflict(refs, 0) then [] else [refs[0]]) + Survivors(refs[1..])
  }

  lemma {:induction false} WithoutConcat(a: seq<Reference>, b: seq<Reference>, r: Reference)
    ensures Without(a + b, r) == Without(a, r) + Without(b, r)
  {
    hide Conflict;
    if a == [] {
      assert a + b == b;
    } else {
      assert (a + b)[1..] == a[1..] + b;
      WithoutConcat(a[1..], b, r);
    }
  }

  lemma LaterConflictOfExtended(refs: seq<Reference>, r: Reference)
    requires refs != []
    ensures LaterConflict(refs + [r], 0) <==> LaterConflict(refs, 0) || Conflict(refs[0], r)
  {
    hide Conflict;
    var s := refs + [r];
    assert s[|refs|] == r && forall j | 0 <= j < |refs| :: s[j] == refs[j];
  }

  lemma {:induction false} SurvivorsOfExtended(refs: seq<Reference>, r: Reference)
    ensures Survivors(refs + [r]) == Without(Survivors(refs), r) + [r]
  {
    if refs == [] {
      var s := refs + [r];
      assert s == [r] && s[1..] == [];
      assert !LaterConflict(s, 0);
    } else {
      hide Conflict, LaterConflict;
      LaterConflictOfExtended(refs, r);
      assert (refs + [r])[1..] == refs[1..] + [r];
      SurvivorsOfExtended(refs[1..], r);
      var head := if LaterConflict(refs, 0) then [] else [refs[0]];
      WithoutConcat(head, Survivors(refs[1..]), r);
      assert Without(head, r) == if LaterConflict(refs + [r], 0) then [] else [refs[0]];
    }
  }

  lemma {:induction false} MergedIsSurvivors(refs: seq<Reference>)
    ensures Merged(refs) == Survivors(refs)
  {
    if refs != [] {
      hide Conflict, LaterConflict;
      var init, r := refs[..|refs| - 1], refs[|refs| - 1];
      assert refs == init + [r];
      MergedIsSurvivors(init);
      SurvivorsOfExtended(init, r);
    }
  }

  lemma {:induction false} AtSpec(refs: seq<Reference>, indices: seq<nat>)
    requires forall a | 0 <= a < |indices| :: indices[a] < |refs|
    ensures |At(refs, indices)| == |indices|
    ensures forall a | 0 <= a < |indices| :: At(refs, indices)[a] == refs[indices[a]]
  {
    if indices != [] {
      AtSpec(refs, indices[1..]);
    }
  }

  lemma LaterConflictOfSuffix(refs: seq<Reference>, i: nat)
    requires i < |refs|
    ensures LaterConflict(refs[i..], 0) <==> LaterConflict(refs, i)
  {
    hide Conflict;
    var s := refs[i..];
    assert forall j | 0 <= j < |s| :: s[j] == refs[i + j];
    if LaterConflict(refs, i) {
      var j :| i < j < |refs| && Conflict(refs[i], refs[j]);
      assert s[j - i] == refs[j];
    }
  }

  lemma {:induction false} SurvivorsAreKept(refs: seq<Reference>, i: nat)
    requires i <= |refs|
    ensures forall a | 0 <= a < |Kept(refs, i)| :: Kept(refs, i)[a] < |refs|
    ensures Survivors(refs[i..]) == At(refs, Kept(refs, i))
    decreases |refs| - i
  {
    if i < |refs| {
      LaterConflictOfSuffix(refs, i);
      hide LaterConflict;
      SurvivorsAreKept(refs, i + 1);
      assert refs[i..][1..] == refs[i + 1..];
      var rest := Kept(refs, i + 1);
      if !LaterConflict(refs, i) {
        assert Kept(refs, i) == [i] + rest && ([i] + rest)[1..] == rest;
      } else {
        assert Kept(refs, i) == rest;
      }
    }
  }

  ghost predicate ConflictFree(refs: seq<Reference>) {
    forall i, j | 0 <= i < j < |refs| :: !Conflict(refs[i], refs[j]) && !Conflict(refs[j], refs[i])
  }

  lemma ConflictIsSymmetric(a: Reference, b: Reference)
    ensures Conflict(a, b) == Conflict(b, a)
  {
  }

  lemma NoneLaterMeans(refs: seq<Reference>)
    ensures forall i: nat | i < |refs| :: !LaterConflict(refs, i) <==>
        forall j | i < j < |refs| :: !Conflict(refs[i], refs[j])
  {
    hide Conflict;
  }

  // Last writer wins: item i survives exactly when no later item conflicts with
  // it, whatever was dropped in between; survivors keep their order and no two
  // of them conflict.
  lemma MergeKeepsUnlessLaterConflict(refs: seq<Reference>)
    ensures var ks := Kept(refs, 0);
            && (forall a | 0 <= a < |ks| :: ks[a] < |refs|)
            && |Merged(refs)| == |ks|
            && (forall a | 0 <= a < |ks| :: Merged(refs)[a] == refs[ks[a]])
            && (forall i: nat :: i in ks <==> i < |refs| && forall j | i < j < |refs| :: !Conflict(refs[i], refs[j]))
            && (forall a, b | 0 <= a < b < |ks| :: ks[a] < ks[b])
    ensures ConflictFree(Merged(refs))
  {
    hide Conflict, Merged, Kept, At, Survivors;
    var ks := Kept(refs, 0);
    KeptSpec(refs, 0);
    MergedIsSurvivors(refs);
    SurvivorsAreKept(refs, 0);
    assert refs[0..] == refs;
    AtSpec(refs, ks);
    NoneLaterMeans(refs);
    hide LaterConflict;
    var m := Merged(refs);
    forall a, b | 0 <= a < b < |m| ensures !Conflict(m[a], m[b]) && !Conflict(m[b], m[a]) {
      assert ks[a] in ks && ks[a] < ks[b] < |refs|;
      ConflictIsSymmetric(m[a], m[b]);
    }
  }

  function Plainly(id: string, kind: Kind, source: string, records: seq<string>): Reference {
    Reference(id, kind, Context, source, NoSource, "", "", "", "", "", "", "", "", "", records, false)
  }

  // Conflict is not transitive, so a dropped item can leave a conflicting one alive.
  lemma ConflictIsNotTransitive()
    ensures var a := Plainly("1", Message, "m", []);
            var t := Plainly("2", Thread, "", ["m", "n"]);
            var b := Plainly("3", Message, "n", []);
            Conflict(a, t) && Conflict(t, b) && !Conflict(a, b) && Merged([a, t, b]) == [b]
  {
    var a := Plainly("1", Message, "m", []);
    var t := Plainly("2", Thread, "", ["m", "n"]);
    var b := Plainly("3", Message, "n", []);
    assert t.recordIds[0] == "m" && t.recordIds[1] == "n";
    assert "m" in ConflictIds(t) && "n" in ConflictIds(t);
    var all := [a, t, b];
    assert all[0] == a && all[1] == t && all[2] == b;
    MergedIsSurvivors(all);
    assert LaterConflict(all, 0);
    assert all[1..] == [t, b] && [t, b][1..] == [b] && [b][1..] == [];
    assert Conflict([t, b][0], [t, b][1]);
    assert LaterConflict([t, b], 0);
    assert Survivors([b]) == [b];
    assert Survivors([t, b]) == [b];
  }

  lemma {:induction false} MergedOfConflictFree(refs: seq<Reference>)
    requires ConflictFree(refs)
    ensures Merged(refs) == refs
  {
    MergedIsSurvivors(refs);
    SurvivorsOfConflictFree(refs);
  }

  lemma {:induction false} SurvivorsOfConflictFree(refs: seq<Reference>)
    requires ConflictFree(refs)
    ensures Survivors(refs) == refs
  {
    hide Conflict;
    if refs != [] {
      assert ConflictFree(refs[1..]);
      SurvivorsOfConflictFree(refs[1..]);
      assert !LaterConflict(refs, 0);
      assert refs == [refs[0]] + refs[1..];
    }
  }

  // ---------------------------------------------- normalizing what is stored

  lemma {:induction false} ToLowerSpec(s: string)
    requires Trimmed(s) && '\r' !in s
    ensures Trimmed(ToLower(s)) && '\r' !in ToLower(s) && ToLower(ToLower(s)) == ToLower(s)
  {
    var l := ToLower(s);
    assert forall i | 0 <= i < |s| :: l[i] == LowerChar(s[i]);
    assert forall i | 0 <= i < |s| :: s[i] != '\r' && l[i] != '\r';
  }

  // A cleaned text: what cleanString leaves alone.
  predicate Clean(text: string, limit: nat) {
    Trimmed(text) && '\r' !in text && (limit == 0 || |text| <= limit)
  }

  lemma CleanStringIsClean(value: string, limit: nat)
    requires limit != 1
    ensures Clean(CleanString(value, limit), limit)
  {
    var n := NormalizeNewline(value);
    var text := Trim(n);
    TrimIsTrimmed(n);
    if limit != 0 && |text| > limit {
      var cut := text[..limit - 1];
      var t := TrimEnd(cut);
      assert t <= cut && cut <= text;
      TrimEndKeepsFirst(cut);
      var r := t + "\U{2026}";
      assert r[0] == text[0] && r[|r| - 1] == '\U{2026}';
      assert forall c | c in t :: c in text;
    }
  }

  lemma CleanStringFixed(text: string, limit: nat)
    requires Clean(text, limit)
    ensures CleanString(text, limit) == text
  {
    NormalizeNewlineFixed(text);
    TrimFixed(text);
  }

  ghost predicate DistinctTrimmed(ids: seq<string>) {
    && (forall i | 0 <= i < |ids| :: ids[i] != "" && Trimmed(ids[i]))
    && (forall i, j | 0 <= i < j < |ids| :: ids[i] != ids[j])
  }

  lemma {:induction false} DistinctIdsSpec(values: seq<string>)
    ensures DistinctTrimmed(DistinctIds(values))
    ensures forall id :: id in DistinctIds(values) <==>
        id != "" && exists i :: 0 <= i < |values| && Trim(values[i]) == id
  {
    if values != [] {
      var init, last := values[..|values| - 1], values[|values| - 1];
      DistinctIdsSpec(init);
      TrimIsTrimmed(last);
      hide Trim, Trimmed;
      var ids := DistinctIds(init);
      forall id ensures id in DistinctIds(values) <==>
          id != "" && exists i :: 0 <= i < |values| && Trim(values[i]) == id {
        if id in ids {
          var i :| 0 <= i < |init| && Trim(init[i]) == id;
          assert values[i] == init[i];
        }
        if i :| 0 <= i < |values| && Trim(values[i]) == id {
          if i < |init| { assert init[i] == values[i]; }
        }
      }
    }
  }

  lemma {:induction false} DistinctIdsFixed(ids: seq<string>)
    requires DistinctTrimmed(ids)
    ensures DistinctIds(ids) == ids
  {
    hide Trim, Trimmed;
    if ids != [] {
      var init, last := ids[..|ids| - 1], ids[|ids| - 1];
      DistinctIdsFixed(init);
      TrimFixed(last);
      assert last !in init && init + [last] == ids;
    }
  }

  // A reference that normalization leaves alone, but perhaps for its source kind.
  ghost predicate Normal(r: Reference) {
    && Trimmed(r.id) && r.id != ""
    && Trimmed(r.sourceRecordId) && Trimmed(r.parentMessageId) && Trimmed(r.spaceId) && Trimmed(r.authorId)
    && Clean(r.spaceType, 0) && ToLower(r.spaceType) == r.spaceType
    && Clean(r.authorType, 0) && ToLower(r.authorType) == r.authorType
    && Clean(r.authorName, NAME_CHARS) && Clean(r.createdAt, 0)
    && Clean(r.bodyPreview, PREVIEW_CHARS) && Clean(r.selectedText, SELECTED_TEXT_CHARS)
    && DistinctTrimmed(r.recordIds) && |r.recordIds| <= RECORDS_PER_REFERENCE
    && (r.kind == Selection ==> r.selectedText != "")
    && (r.kind == Message || r.kind == Selection ==> r.sourceRecordId != "")
  }

  predicate UsableId(id: string) {
    Trimmed(id) && id != ""
  }

  lemma FirstKeepsDistinct(ids: seq<string>, n: nat)
    requires DistinctTrimmed(ids)
    ensures DistinctTrimmed(First(ids, n)) && |First(ids, n)| <= n
  {
    hide Trimmed;
  }

  lemma NormalizedIsNormal(raw: Raw, fallbackId: string)
    requires UsableId(fallbackId) && NormalizedReference(raw, fallbackId).Some?
    ensures Normal(NormalizedReference(raw, fallbackId).value)
  {
    TrimIsTrimmed(raw.id); TrimIsTrimmed(FirstOf(raw.sourceRecordIds)); TrimIsTrimmed(raw.parentMessageId);
    TrimIsTrimmed(raw.spaceId); TrimIsTrimmed(raw.authorId);
    CleanStringIsClean(raw.spaceType, 0); ToLowerSpec(CleanString(raw.spaceType, 0));
    CleanStringIsClean(raw.authorType, 0); ToLowerSpec(CleanString(raw.authorType, 0));
    CleanStringIsClean(raw.authorName, NAME_CHARS); CleanStringIsClean(raw.createdAt, 0);
    CleanStringIsClean(FirstOf(raw.previews), PREVIEW_CHARS);
    CleanStringIsClean(FirstOf(raw.texts), SELECTED_TEXT_CHARS);
    DistinctIdsSpec(raw.recordIds);
    hide Trim, Trimmed, CleanString, Clean, ToLower, DistinctIds, FirstOf, NormalizedMode, NormalizedSourceKind,
         NormalizedKind, DistinctTrimmed;
    FirstKeepsDistinct(DistinctIds(raw.recordIds), RECORDS_PER_REFERENCE);
  }

  // The value normalization gives a stored reference: a missing source kind
  // becomes "reply" once a parent message is there.
  function Renormalized(r: Reference): Reference {
    if r.sourceKind == NoSource && r.parentMessageId != "" then r.(sourceKind := FromReply) else r
  }

  lemma NameFixed(name: string)
    requires name in ["", "message", "selection", "thread", "conversation", "quote", "context", "reply"]
    ensures ToLower(CleanString(name, 0)) == name
  {
    assert forall i | 0 <= i < |name| :: 'a' <= name[i] <= 'z';
    CleanStringFixed(name, 0);
    hide CleanString, IsSpace;
    assert forall i | 0 <= i < |name| :: ToLower(name)[i] == LowerChar(name[i]) == name[i];
    assert ToLower(name) == name;
  }

  lemma KindFixed(kind: Kind)
    ensures NormalizedKind(KindName(kind)) == kind
  {
    NameFixed(KindName(kind));
    hide CleanString, ToLower;
  }

  lemma ModeFixed(mode: Mode)
    ensures NormalizedMode(ModeName(mode)) == mode
  {
    NameFixed(ModeName(mode));
    hide CleanString, ToLower;
    assert "quote" != "context";
  }

  lemma SourceFixed(kind: SourceKind, fallback: string)
    requires fallback == "" || fallback == "reply"
    ensures NormalizedSourceKind(SourceName(kind), fallback)
            == if kind == NoSource && fallback == "reply" then FromReply else kind
  {
    NameFixed(if kind == NoSource then fallback else SourceName(kind));
    hide CleanString, ToLower;
  }

  lemma FirstOfOne(value: string)
    ensures FirstOf([value]) == value
  {
    if value == "" { assert [value][1..] == []; }
  }

  lemma NormalReferenceRenormalizes(r: Reference, fallbackId: string)
    requires Normal(r)
    ensures NormalizedReference(Stored(r), fallbackId) == Some(Renormalized(r))
  {
    hide Trim, Trimmed, CleanString, ToLower, DistinctIds, FirstOf, NormalizedMode, NormalizedSourceKind,
         NormalizedKind,
         KindName, ModeName, SourceName, Clean, DistinctTrimmed;
    KindFixed(r.kind); ModeFixed(r.mode);
    SourceFixed(r.sourceKind, if r.parentMessageId != "" then "reply" else "");
    TrimFixed(r.id); TrimFixed(r.sourceRecordId); TrimFixed(r.parentMessageId); TrimFixed(r.spaceId);
    TrimFixed(r.authorId);
    CleanStringFixed(r.spaceType, 0); CleanStringFixed(r.authorType, 0); CleanStringFixed(r.authorName, NAME_CHARS);
    CleanStringFixed(r.createdAt, 0); CleanStringFixed(r.bodyPreview, PREVIEW_CHARS);
    CleanStringFixed(r.selectedText, SELECTED_TEXT_CHARS);
    DistinctIdsFixed(r.recordIds);
    FirstOfOne(r.sourceRecordId); FirstOfOne(r.bodyPreview); FirstOfOne(r.selectedText);
  }

  function RenormalizedAll(refs: seq<Reference>): seq<Reference> {
    seq(|refs|, i requires 0 <= i < |refs| => Renormalized(refs[i]))
  }

  ghost predicate AllNormal(refs: seq<Reference>) {
    forall i | 0 <= i < |refs| :: Normal(refs[i])
  }

  ghost predicate UsableIds(ids: seq<string>) {
    forall i | 0 <= i < |ids| :: UsableId(ids[i])
  }

  lemma {:induction false} NormalizedAllIsNormal(raws: seq<Raw>, fallbackIds: seq<string>)
    requires |raws| == |fallbackIds| && UsableIds(fallbackIds)
    ensures AllNormal(NormalizedAll(raws, fallbackIds))
  {
    hide Normal, NormalizedReference, UsableId;
    if raws != [] {
      assert UsableId(fallbackIds[0]);
      if NormalizedReference(raws[0], fallbackIds[0]).Some? { NormalizedIsNormal(raws[0], fallbackIds[0]); }
      NormalizedAllIsNormal(raws[1..], fallbackIds[1..]);
    }
  }

  lemma {:induction false} NormalizedAllOfStored(refs: seq<Reference>, fallbackIds: seq<string>)
    requires |refs| == |fallbackIds| && AllNormal(refs)
    ensures NormalizedAll(StoredAll(refs), fallbackIds) == RenormalizedAll(refs)
  {
    hide Normal, NormalizedReference, Stored, Renormalized;
    if refs != [] {
      NormalReferenceRenormalizes(refs[0], fallbackIds[0]);
      NormalizedAllOfStored(refs[1..], fallbackIds[1..]);
      assert StoredAll(refs)[0] == Stored(refs[0]) && StoredAll(refs)[1..] == StoredAll(refs[1..]);
      assert RenormalizedAll(refs) == [Renormalized(refs[0])] + RenormalizedAll(refs[1..]);
    }
  }

  lemma NormalizedListSpec(raws: seq<Raw>, fallbackIds: seq<string>)
    requires |raws| == |fallbackIds| && UsableIds(fallbackIds)
    ensures var l := NormalizedList(raws, fallbackIds);
            AllNormal(l) && ConflictFree(l) && |l| <= REFERENCES_PER_MESSAGE
  {
    hide Normal, Conflict, Merged, NormalizedAll, Kept, UsableId;
    var all := NormalizedAll(raws, fallbackIds);
    NormalizedAllIsNormal(raws, fallbackIds);
    MergeKeepsUnlessLaterConflict(all);
    var m, ks := Merged(all), Kept(all, 0);
    assert forall a | 0 <= a < |m| :: m[a] == all[ks[a]];
  }

  lemma RenormalizingKeepsConflicts(a: Reference, b: Reference)
    ensures Conflict(Renormalized(a), Renormalized(b)) == Conflict(a, b)
  {
    assert Signature(Renormalized(a)) == Signature(a) && Signature(Renormalized(b)) == Signature(b);
    assert ConflictIds(Renormalized(a)) == ConflictIds(a) && ConflictIds(Renormalized(b)) == ConflictIds(b);
  }

  // Normalizing a stored list again only fills in missing source kinds.
  lemma NormalizingAgain(raws: seq<Raw>, fallbackIds: seq<string>, otherIds: seq<string>)
    requires |raws| == |fallbackIds| && UsableIds(fallbackIds)
    requires |otherIds| == |NormalizedList(raws, fallbackIds)|
    ensures var l := NormalizedList(raws, fallbackIds);
            NormalizedList(StoredAll(l), otherIds) == RenormalizedAll(l)
  {
    var l := NormalizedList(raws, fallbackIds);
    NormalizedListSpec(raws, fallbackIds);
    NormalizedAllOfStored(l, otherIds);
    var n := RenormalizedAll(l);
    forall i, j | 0 <= i < j < |n| ensures !Conflict(n[i], n[j]) && !Conflict(n[j], n[i]) {
      RenormalizingKeepsConflicts(l[i], l[j]);
      RenormalizingKeepsConflicts(l[j], l[i]);
    }
    MergedOfConflictFree(n);
  }

  // Normalizing a normalized list changes nothing exactly when none of its
  // references names a parent message without a source kind.
  lemma StoredListIsStableIff(raws: seq<Raw>, fallbackIds: seq<string>, otherIds: seq<string>)
    requires |raws| == |fallbackIds| && UsableIds(fallbackIds)
    requires |otherIds| == |NormalizedList(raws, fallbackIds)|
    ensures var l := NormalizedList(raws, fallbackIds);
            NormalizedList(StoredAll(l), otherIds) == l <==>
              forall r | r in l :: r.parentMessageId == "" || r.sourceKind != NoSource
  {
    NormalizingAgain(raws, fallbackIds, otherIds);
    var l := NormalizedList(raws, fallbackIds);
    var n := RenormalizedAll(l);
    hide NormalizedList, StoredAll;
    if n == l {
      forall r | r in l ensures r.parentMessageId == "" || r.sourceKind != NoSource {
        var i :| 0 <= i < |l| && l[i] == r;
        assert n[i] == Renormalized(l[i]);
      }
    }
  }

  lemma OneReference(raw: Raw, fallbackId: string)
    requires NormalizedReference(raw, fallbackId).Some?
    ensures NormalizedList([raw], [fallbackId]) == [NormalizedReference(raw, fallbackId).value]
  {
    hide NormalizedReference, Conflict;
    var r := NormalizedReference(raw, fallbackId).value;
    assert NormalizedAll([raw][1..], [fallbackId][1..]) == [];
    assert NormalizedAll([raw], [fallbackId]) == [r] && [r][..0] == [];
    assert Merged([r]) == [r];
  }

  function UnknownSource(): Raw {
    Raw("i", "message", "", ["m"], "email", "p", "", "", "", "", "", "", [""], [""], [], false)
  }

  lemma EmailIsUnknown()
    ensures NormalizedSourceKind("email", "reply") == NoSource
  {
    CleanStringFixed("email", 0);
    hide CleanString;
    assert ToLower("email")[0] == 'e';
  }

  lemma UnknownSourceIsDropped(fallbackId: string)
    ensures var n := NormalizedReference(UnknownSource(), fallbackId);
            n.Some? && n.value.sourceKind == NoSource && n.value.parentMessageId == "p"
  {
    EmailIsUnknown();
    KindFixed(Message);
    TrimFixed("m");
    TrimFixed("p");
    assert FirstOf(["m"]) == "m";
    hide CleanString, ToLower, Trim, DistinctIds, FirstOf, NormalizedKind, NormalizedMode, NormalizedSourceKind;
  }

  // The input that makes it fail: an unknown source kind beside a parent message
  // is first dropped and then replaced by "reply".
  lemma StoredListCanChange(fallbackId: string, otherId: string)
    requires UsableId(fallbackId)
    ensures var l := NormalizedList([UnknownSource()], [fallbackId]);
            && |l| == 1 && l[0].sourceKind == NoSource
            && NormalizedList(StoredAll(l), [otherId]) == [l[0].(sourceKind := FromReply)]
  {
    hide UnknownSource, NormalizedReference, NormalizedList, Stored, UsableId;
    var l := NormalizedList([UnknownSource()], [fallbackId]);
    UnknownSourceIsDropped(fallbackId);
    OneReference(UnknownSource(), fallbackId);
    assert UsableId([fallbackId][0]);
    NormalizingAgain([UnknownSource()], [fallbackId], [otherId]);
  }

  // A third normalization never changes anything.
  lemma SecondNormalizationSettles(raws: seq<Raw>, fallbackIds: seq<string>, otherIds: seq<string>)
    requires |raws| == |fallbackIds| && UsableIds(fallbackIds) && UsableIds(otherIds)
    requires |otherIds| == |NormalizedList(raws, fallbackIds)|
    ensures var twice := NormalizedList(StoredAll(NormalizedList(raws, fallbackIds)), otherIds);
            |twice| == |otherIds| && NormalizedList(StoredAll(twice), otherIds) == twice
  {
    var l := NormalizedList(raws, fallbackIds);
    NormalizingAgain(raws, fallbackIds, otherIds);
    var twice := RenormalizedAll(l);
    StoredListIsStableIff(StoredAll(l), otherIds, otherIds);
  }
}
