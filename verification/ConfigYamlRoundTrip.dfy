// What the configuration parser reads from the canonical block layout of a tree:
// entries of a mapping on lines of one indentation, children two columns deeper,
// an item's first entry beside its dash.
module ConfigYamlRoundTrip {
  import opened Text
  import opened Wrappers
  import opened ConfigYaml

  datatype Tree =
    | Leaf(text: string)
    | Maps(entries: seq<Entry>)
    | Items(items: seq<Tree>)

  datatype Entry = Entry(key: string, value: Tree)

  // -------------------------------------------------------------- rendering

  function EntryText(e: Entry): string {
    e.key + (if e.value.Leaf? then ": " + e.value.text else ":")
  }

  function RenderChildren(v: Tree, indent: nat): seq<Line>
    decreases v, 0
  {
    match v
    case Leaf(_) => []
    case Maps(entries) => RenderEntries(entries, indent)
    case Items(items) => RenderItems(items, indent)
  }

  function RenderEntry(e: Entry, indent: nat): seq<Line>
    decreases e, 0
  {
    [Line(indent, EntryText(e))] + RenderChildren(e.value, indent + 2)
  }

  function RenderEntries(entries: seq<Entry>, indent: nat): seq<Line>
    decreases entries, 0
  {
    if entries == [] then [] else RenderEntry(entries[0], indent) + RenderEntries(entries[1..], indent)
  }

  function RenderItem(item: Tree, indent: nat): seq<Line>
    decreases item, 1
  {
    match item
    case Leaf(text) => [Line(indent, "- " + text)]
    case Maps(entries) =>
      if entries == [] then []
      else [Line(indent, "- " + EntryText(entries[0]))] + RenderChildren(entries[0].value, indent + 4)
           + RenderEntries(entries[1..], indent + 2)
    case Items(_) => []
  }

  function RenderItems(items: seq<Tree>, indent: nat): seq<Line>
    decreases items, 0
  {
    if items == [] then [] else RenderItem(items[0], indent) + RenderItems(items[1..], indent)
  }

  function Spaces(n: nat): (r: string)
    ensures |r| == n
  {
    if n == 0 then "" else " " + Spaces(n - 1)
  }

  function RawLines(ls: seq<Line>): (r: seq<string>)
    ensures |r| == |ls|
  {
    if ls == [] then [] else [Spaces(ls[0].indent) + ls[0].text] + RawLines(ls[1..])
  }

  function Render(t: Tree): string {
    Join(RawLines(RenderChildren(t, 0)))
  }

  // ---------------------------------------------------------- what it means

  function Meaning(t: Tree): Value
    decreases t, 0
  {
    match t
    case Leaf(text) => Scalar(text)
    case Maps(entries) => Map(EntriesMeaning(entries))
    case Items(items) => Seq(ItemsMeaning(items))
  }

  function EntriesMeaning(entries: seq<Entry>): seq<Pair>
    decreases entries, 0
  {
    if entries == [] then [] else [Pair(entries[0].key, Meaning(entries[0].value))] + EntriesMeaning(entries[1..])
  }

  function ItemsMeaning(items: seq<Tree>): seq<Value>
    decreases items, 0
  {
    if items == [] then [] else [Meaning(items[0])] + ItemsMeaning(items[1..])
  }

  // What the parser makes of it. It differs in two places, both inside sequences:
  // a scalar item that looks like an entry is one, and an item whose first entry
  // is an empty mapping hands its other entries to that mapping.
  function Read(t: Tree): Value
    decreases t, 0
  {
    match t
    case Leaf(text) => Scalar(text)
    case Maps(entries) => Map(ReadEntries(entries))
    case Items(items) => Seq(ReadItems(items))
  }

  function ReadEntries(entries: seq<Entry>): seq<Pair>
    decreases entries, 0
  {
    if entries == [] then [] else [Pair(entries[0].key, Read(entries[0].value))] + ReadEntries(entries[1..])
  }

  predicate SwallowsRest(entries: seq<Entry>) {
    |entries| > 1 && entries[0].value == Maps([])
  }

  function ReadItem(item: Tree): Value
    decreases item, 1
  {
    match item
    case Leaf(text) =>
      if IsEntry(text) then Map([Pair(KeyOf(text), if Blank(RawOf(text)) then Map([]) else Scalar(RawOf(text)))])
      else Scalar(text)
    case Maps(entries) =>
      if SwallowsRest(entries) then Map([Pair(entries[0].key, Map(ReadEntries(entries[1..])))])
      else Map(ReadEntries(entries))
    case Items(_) => Null
  }

  function ReadItems(items: seq<Tree>): seq<Value>
    decreases items, 0
  {
    if items == [] then [] else [ReadItem(items[0])] + ReadItems(items[1..])
  }

  // ---------------------------------------------- trees that have the layout

  ghost predicate ScalarText(text: string) {
    text != "" && Trimmed(text) && NoTerminator(text)
  }

  ghost predicate KeyText(key: string) {
    key != "" && Trimmed(key) && NoTerminator(key) && ':' !in key && key[0] != '#' && !StartsWith(key, "- ")
  }

  ghost predicate Proper(t: Tree)
    decreases t, 0
  {
    match t
    case Leaf(text) => ScalarText(text)
    case Maps(entries) => ProperEntries(entries)
    case Items(items) => items != [] && ProperItems(items)
  }

  ghost predicate ProperEntries(entries: seq<Entry>)
    decreases entries, 0
  {
    entries == [] ||
    (&& KeyText(entries[0].key) && Proper(entries[0].value)
     && (forall i | 1 <= i < |entries| :: entries[i].key != entries[0].key)
     && ProperEntries(entries[1..]))
  }

  // An item is a scalar or a mapping that has an entry to stand beside the dash.
  ghost predicate ProperItem(item: Tree)
    decreases item, 1
  {
    match item
    case Leaf(text) => ScalarText(text)
    case Maps(entries) => entries != [] && ProperEntries(entries)
    case Items(_) => false
  }

  ghost predicate ProperItems(items: seq<Tree>)
    decreases items, 0
  {
    items == [] || (ProperItem(items[0]) && ProperItems(items[1..]))
  }

  // ---------------------------------------------------------- line by line

  predicate Below(ls: seq<Line>, indent: nat) {
    ls == [] || ls[0].indent < indent
  }

  lemma {:induction false} ColonOf(key: string, rest: string)
    requires ':' !in key
    ensures ColonAt(key + ":" + rest) == |key|
    ensures (key + ":" + rest)[..|key|] == key && (key + ":" + rest)[|key| + 1..] == rest
  {
    var s := key + ":" + rest;
    if key != "" {
      assert s[1..] == key[1..] + ":" + rest;
      ColonOf(key[1..], rest);
    }
  }

  function RawOfEntry(e: Entry): string {
    if e.value.Leaf? then " " + e.value.text else ""
  }

  lemma EntryParts(key: string, rest: string)
    requires KeyText(key) && NoTerminator(rest)
    ensures var s := key + ":" + rest;
            IsEntry(s) && KeyOf(s) == key && RawOf(s) == rest
  {
    ColonOf(key, rest);
    TrimFixed(key);
    hide ColonAt, Trim, IsSpace;
  }

  lemma DashPrefix(s: string)
    ensures StartsWith(s, "- ") <==> |s| > 1 && s[0] == '-' && s[1] == ' '
  {
    assert |s| > 1 ==> s[..2] == [s[0], s[1]];
  }

  lemma EntryShape(key: string, rest: string)
    requires KeyText(key) && (rest == "" || Trimmed(rest[1..]))
    requires rest != "" ==> |rest| > 1
    ensures var s := key + ":" + rest;
            s != "" && Trim(s) == s && Trimmed(s) && s[0] == key[0] && !StartsWith(s, "- ")
  {
    var s := key + ":" + rest;
    assert s[|s| - 1] == if rest == "" then ':' else rest[1..][|rest| - 2];
    assert s[0] == key[0] && s[1] == if |key| > 1 then key[1] else ':';
    TrimFixed(s);
    hide Trim, StartsWith;
    DashPrefix(s);
    DashPrefix(key);
  }

  // An entry's text is trimmed and gives back its key and what follows the colon.
  lemma EntryTextSpec(e: Entry)
    requires KeyText(e.key) && (e.value.Leaf? ==> ScalarText(e.value.text))
    ensures var s := EntryText(e);
            && IsEntry(s) && KeyOf(s) == e.key && RawOf(s) == RawOfEntry(e)
            && s != "" && Trimmed(s) && Trim(s) == s && s[0] == e.key[0] && !StartsWith(s, "- ")
  {
    var rest := RawOfEntry(e);
    if e.value.Leaf? {
      assert rest[1..] == e.value.text && |rest| > 1;
      assert forall i | 1 <= i < |rest| :: rest[i] == e.value.text[i - 1];
    }
    hide KeyText, KeyOf, RawOf, IsEntry, Trim, Trimmed, StartsWith;
    assert e.key + ":" + rest == EntryText(e) by {
      if e.value.Leaf? {
        assert e.key + ":" + (" " + e.value.text) == e.key + (": " + e.value.text);
      } else {
        assert e.key + ":" + "" == e.key + ":";
      }
    }
    EntryParts(e.key, rest);
    EntryShape(e.key, rest);
  }

  lemma BlankRaw(text: string)
    requires ScalarText(text)
    ensures Blank("") && !Blank(" " + text) && Scalar(" " + text) == Scalar(text) && !Blank(text)
  {
    TrimFixed(text);
    assert (" " + text)[1..] == text;
    assert Trim(" " + text) == text == Trim(text);
    ScalarOfTrimmed(" " + text, text);
  }

  lemma DashText(text: string)
    requires text != "" && Trimmed(text)
    ensures StartsWith("- " + text, "- ") && Trim(("- " + text)[2..]) == text
  {
    assert ("- " + text)[2..] == text;
    TrimFixed(text);
  }

  // Scalar looks only at the trimmed text.
  lemma ScalarOfTrimmed(a: string, b: string)
    requires Trim(a) == Trim(b)
    ensures Scalar(a) == Scalar(b)
  {
    TrimShortens(a);
    TrimShortens(b);
    hide StripComment, Trim, CleanScalar;
    BoundIsFree(StripComment(Trim(a)), |a|, |b|);
  }

  lemma BoundIsFree(value: string, n: nat, m: nat)
    requires |value| <= n && |value| <= m
    ensures CleanScalar(value, n) == CleanScalar(value, m)
  {
    hide IsNumeral, ToLower, SplitAt, Inside, ScalarParts, Delimited;
    if value != "" {
      SplitAtShortens(Inside(value), ',');
      PartsBound(SplitAt(Inside(value), ','), n, m);
    }
  }

  lemma {:induction false} PartsBound(parts: seq<string>, n: nat, m: nat)
    requires forall i | 0 <= i < |parts| :: |parts[i]| < n && |parts[i]| < m
    ensures ScalarParts(parts, n) == ScalarParts(parts, m)
    decreases |parts|
  {
    hide Scalar, Trim;
    if parts != [] { PartsBound(parts[1..], n, m); }
  }

  // ------------------------------------------------------ lines read back

  predicate HasKey(entries: seq<Pair>, key: string) {
    exists i :: 0 <= i < |entries| && entries[i].key == key
  }

  lemma {:induction false} SetOfNewKey(entries: seq<Pair>, key: string, value: Value)
    requires !HasKey(entries, key)
    ensures Set(entries, key, value) == entries + [Pair(key, value)]
  {
    FindOfNewKey(entries, key);
  }

  lemma {:induction false} FindOfNewKey(entries: seq<Pair>, key: string)
    requires !HasKey(entries, key)
    ensures Find(entries, key) == |entries|
  {
    if entries != [] {
      assert entries[0].key != key;
      assert forall i | 0 <= i < |entries[1..]| :: entries[1..][i] == entries[i + 1];
      FindOfNewKey(entries[1..], key);
    }
  }

  // No key of `more` is among `entries`.
  ghost predicate Apart(entries: seq<Pair>, more: seq<Entry>) {
    forall i | 0 <= i < |more| :: !HasKey(entries, more[i].key)
  }

  lemma ApartNext(entries: seq<Pair>, more: seq<Entry>, value: Value)
    requires Apart(entries, more) && more != []
    requires forall i | 1 <= i < |more| :: more[i].key != more[0].key
    ensures !HasKey(entries, more[0].key)
    ensures Apart(entries + [Pair(more[0].key, value)], more[1..])
  {
    var next := entries + [Pair(more[0].key, value)];
    forall i | 0 <= i < |more[1..]| ensures !HasKey(next, more[1..][i].key) {
      assert !HasKey(entries, more[i + 1].key);
    }
  }

  lemma {:induction false} AssignNew(entries: seq<Pair>, more: seq<Entry>)
    requires Apart(entries, more) && ProperEntries(more)
    ensures Assign(entries, ReadEntries(more)) == entries + ReadEntries(more)
    decreases |more|
  {
    hide KeyText, Set, HasKey, Apart, Read, Proper, Assign, ReadEntries;
    if more != [] {
      var p := Pair(more[0].key, Read(more[0].value));
      ReadEntriesHead(more);
      ApartNext(entries, more, p.value);
      SetOfNewKey(entries, p.key, p.value);
      AssignHead(entries, p, ReadEntries(more[1..]));
      AssignNew(entries + [p], more[1..]);
      Assoc(entries, [p], ReadEntries(more[1..]));
    } else {
      AssignNone(entries);
    }
  }

  lemma AssignHead(entries: seq<Pair>, p: Pair, more: seq<Pair>)
    ensures Assign(entries, [p] + more) == Assign(Set(entries, p.key, p.value), more)
  {
    assert ([p] + more)[1..] == more;
  }

  lemma AssignNone(entries: seq<Pair>)
    ensures Assign(entries, ReadEntries([])) == entries + ReadEntries([])
  {
    assert entries + [] == entries;
  }

  lemma EntriesStart(entries: seq<Entry>, indent: nat)
    requires ProperEntries(entries) && entries != []
    ensures var ls := RenderEntries(entries, indent);
            ls != [] && ls[0] == Line(indent, EntryText(entries[0])) && !IsDash(ls[0])
  {
    EntryTextSpec(entries[0]);
    hide StartsWith, EntryText;
  }

  lemma ItemsStart(items: seq<Tree>, indent: nat)
    requires ProperItems(items) && items != []
    ensures var ls := RenderItems(items, indent);
            ls != [] && ls[0].indent == indent && IsDash(ls[0])
  {
    hide EntryText, ScalarText, KeyText;
    var text := if items[0].Leaf? then items[0].text else EntryText(items[0].entries[0]);
    assert RenderItem(items[0], indent)[0] == Line(indent, "- " + text);
    DashPrefix("- " + text);
  }

  // One more column in is still above what is below.
  lemma BelowMore(ls: seq<Line>, i: nat, j: nat)
    requires Below(ls, i) && i <= j
    ensures Below(ls, j)
  {
  }

  lemma HeadTail(head: Line, a: seq<Line>, b: seq<Line>)
    ensures ([head] + a + b)[0] == head && ([head] + a + b)[1..] == a + b
  {
    assert [head] + a + b == [head] + (a + b);
  }

  // The value of an entry, on its own line or on the deeper lines below it.
  lemma {:induction false} ValueReads(v: Tree, head: Line, indent: nat, inner: nat, after: seq<Line>)
    requires Proper(v) && indent < inner
    requires v.Leaf? || Below(after, if v == Maps([]) then indent + 1 else inner)
    ensures ParseEntry(if v.Leaf? then " " + v.text else "", [head] + RenderChildren(v, inner) + after, indent) ==
        (Read(v), after)
    decreases v, 6
  {
    hide EntryText, Scalar, ParseBlock, Trim, ScalarText, IsDash;
    var ls := [head] + RenderChildren(v, inner) + after;
    HeadTail(head, RenderChildren(v, inner), after);
    match v
    case Leaf(text) =>
      BlankRaw(text);
      assert [] + after == after;
    case Maps(entries) =>
      BlankIsBlank();
      if entries == [] {
        assert [] + after == after;
      } else {
        EntriesStart(entries, inner);
        BlockOfEntries(entries, inner, after);
      }
    case Items(items) =>
      BlankIsBlank();
      ItemsStart(items, inner);
      BlockOfItems(items, inner, after);
  }

  lemma BlankIsBlank()
    ensures Blank("")
  {
  }

  lemma {:induction false} BlockOfEntries(entries: seq<Entry>, indent: nat, after: seq<Line>)
    requires ProperEntries(entries) && entries != [] && Below(after, indent)
    ensures var ls := RenderEntries(entries, indent) + after;
            ls != [] && ls[0].indent == indent && ParseBlock(ls, indent) == (Map(ReadEntries(entries)), after)
    decreases entries, 2
  {
    hide EntryText, RenderEntries, IsDash, ReadEntries, EntryLoop, ItemLoop;
    EntriesStart(entries, indent);
    EntriesRead(entries, indent, [], after);
    assert [] + ReadEntries(entries) == ReadEntries(entries);
  }

  lemma {:induction false} BlockOfItems(items: seq<Tree>, indent: nat, after: seq<Line>)
    requires ProperItems(items) && items != [] && Below(after, indent)
    ensures var ls := RenderItems(items, indent) + after;
            ls != [] && ls[0].indent == indent && ParseBlock(ls, indent) == (Seq(ReadItems(items)), after)
    decreases items, 5
  {
    hide RenderItems, IsDash, ReadItems, EntryLoop, ItemLoop;
    ItemsStart(items, indent);
    ItemsRead(items, indent, [], after);
    assert [] + ReadItems(items) == ReadItems(items);
  }

  lemma {:induction false} EntriesRead(entries: seq<Entry>, indent: nat, acc: seq<Pair>, after: seq<Line>)
    requires ProperEntries(entries) && Below(after, indent) && Apart(acc, entries)
    ensures EntryLoop(RenderEntries(entries, indent) + after, indent, acc) == (acc + ReadEntries(entries), after)
    decreases entries, 1
  {
    hide EntryText, IsEntry, KeyOf, RawOf, IsDash, ParseEntry, Set, Apart, RenderChildren, Proper, KeyText, HasKey,
         Below, Read;
    if entries == [] {
      assert [] + after == after && acc + [] == acc;
      NothingToRead(indent, acc, after);
    } else {
      var e, rest := entries[0], RenderEntries(entries[1..], indent) + after;
      var head := Line(indent, EntryText(e));
      var children := RenderChildren(e.value, indent + 2);
      RestIsBelow(entries, indent, after);
      EntriesStart(entries, indent);
      ReadEntriesHead(entries);
      Assoc([head] + children, RenderEntries(entries[1..], indent), after);
      hide RenderEntries, ReadEntries;
      assert ([head] + children + rest)[0] == head;
      EntryOfProper(e);
      BelowMore(rest, indent + 1, indent + 2);
      ValueReads(e.value, head, indent, indent + 2, rest);
      var p := Pair(e.key, Read(e.value));
      ApartNext(acc, entries, p.value);
      SetOfNewKey(acc, e.key, p.value);
      EntriesRead(entries[1..], indent, acc + [p], after);
      Assoc(acc, [p], ReadEntries(entries[1..]));
    }
  }

  lemma NothingToRead(indent: nat, acc: seq<Pair>, after: seq<Line>)
    requires Below(after, indent)
    ensures EntryLoop(after, indent, acc) == (acc, after)
  {
  }

  // The entry's parts, as the parser sees them.
  lemma EntryOfProper(e: Entry)
    requires KeyText(e.key) && Proper(e.value)
    ensures IsEntry(EntryText(e)) && KeyOf(EntryText(e)) == e.key
    ensures RawOf(EntryText(e)) == if e.value.Leaf? then " " + e.value.text else ""
  {
    EntryTextSpec(e);
  }

  // What follows an entry is not deeper than it.
  lemma RestIsBelow(entries: seq<Entry>, indent: nat, after: seq<Line>)
    requires ProperEntries(entries) && entries != [] && Below(after, indent)
    ensures Below(RenderEntries(entries[1..], indent) + after, indent + 1)
  {
    hide EntryText, KeyText, Proper, RenderChildren, IsDash;
    var rest := RenderEntries(entries[1..], indent);
    if |entries| > 1 {
      EntriesStart(entries[1..], indent);
    } else {
      assert rest + after == after;
    }
  }

  lemma SetOfNone(key: string, value: Value)
    ensures Set([], key, value) == [Pair(key, value)]
  {
  }

  lemma ContinuationStops(ls: seq<Line>, indent: nat, item: seq<Pair>)
    requires Below(ls, indent + 1)
    ensures Continuation(ls, indent, item) == (item, ls)
  {
  }

  lemma LeafItemReads(text: string, indent: nat, after: seq<Line>)
    requires ScalarText(text) && Below(after, indent + 1)
    ensures var ls := RenderItem(Leaf(text), indent) + after;
            IsDash(ls[0]) && ParseItem(ls, indent) == (ReadItem(Leaf(text)), after)
  {
    var head := Line(indent, "- " + text);
    var ls := RenderItem(Leaf(text), indent) + after;
    HeadTail(head, [], after);
    assert ls == [head] + [] + after && [] + after == after;
    DashText(text);
    hide Trim, Scalar, IsEntry, KeyOf, RawOf, ParseBlock, Continuation, Set, StartsWith, RenderItem;
    assert ls[0] == head && ls[1..] == after;
    if IsEntry(text) {
      var v := if Blank(RawOf(text)) then Map([]) else Scalar(RawOf(text));
      assert ParseEntry(RawOf(text), ls, indent) == (v, after);
      SetOfNone(KeyOf(text), v);
      ContinuationStops(after, indent, [Pair(KeyOf(text), v)]);
      hide ParseEntry;
    }
  }

  // The entries of an item after its first one.
  lemma RestOfItem(entries: seq<Entry>, indent: nat, after: seq<Line>, p: Pair)
    requires ProperEntries(entries) && Below(after, indent + 1)
    requires forall i | 0 <= i < |entries| :: entries[i].key != p.key
    requires var ls := RenderEntries(entries, indent + 2) + after;
             entries != [] ==>
               ls != [] && ls[0].indent == indent + 2 &&
                   ParseBlock(ls, indent + 2) == (Map(ReadEntries(entries)), after)
    ensures Continuation(RenderEntries(entries, indent + 2) + after, indent, [p]) == ([p] + ReadEntries(entries), after)
  {
    hide EntryText, KeyText, Proper, RenderChildren, ParseBlock, IsDash, Read;
    var ls := RenderEntries(entries, indent + 2) + after;
    if entries == [] {
      assert [] + after == after && [p] + [] == [p];
      ContinuationStops(after, indent, [p]);
    } else {
      EntriesStart(entries, indent + 2);
      assert ls[0] == RenderEntries(entries, indent + 2)[0];
      AssignNew([p], entries);
      hide RenderEntries, ReadEntries, Assign;
      ContinuationStops(after, indent, [p] + ReadEntries(entries));
    }
  }

  lemma {:induction false} ItemReads(item: Tree, indent: nat, after: seq<Line>)
    requires ProperItem(item) && Below(after, indent + 1)
    ensures var ls := RenderItem(item, indent) + after;
            ls != [] && IsDash(ls[0]) && ParseItem(ls, indent) == (ReadItem(item), after)
    decreases item, 3
  {
    if item.Leaf? {
      LeafItemReads(item.text, indent, after);
    } else {
      MapItemReads(item.entries, indent, after);
    }
  }

  lemma {:induction false} MapItemReads(entries: seq<Entry>, indent: nat, after: seq<Line>)
    requires entries != [] && ProperEntries(entries) && Below(after, indent + 1)
    ensures var ls := RenderItem(Maps(entries), indent) + after;
            ls != [] && IsDash(ls[0]) && ParseItem(ls, indent) == (ReadItem(Maps(entries)), after)
    decreases entries, 3
  {
    hide EntryText, KeyText, Trim, Scalar, IsEntry, KeyOf, RawOf, ParseBlock, Continuation, Set, StartsWith,
         RenderChildren,
         RenderEntries, ReadEntries, Read, ParseEntry, Trimmed;
    var e, more := entries[0], entries[1..];
    var head, rest := Line(indent, "- " + EntryText(e)), RenderEntries(more, indent + 2) + after;
    var ls := RenderItem(Maps(entries), indent) + after;
    assert ls == [head] + RenderChildren(e.value, indent + 4) + rest;
    assert ls[0] == head;
    var raw := if e.value.Leaf? then " " + e.value.text else "";
    MapItemHead(e, indent);
    if more != [] { BlockOfEntries(more, indent + 2, after); }
    if SwallowsRest(entries) {
      var v := Map(ReadEntries(more));
      SwallowedRest(head, rest, indent, v, after);
      assert RenderChildren(e.value, indent + 4) == [] by { NoChildren(indent + 4); }
      SetOfNone(e.key, v);
      ContinuationStops(after, indent, [Pair(e.key, v)]);
    } else {
      RestIsDeeper(more, indent, after);
      ValueReads(e.value, head, indent, indent + 4, rest);
      SetOfNone(e.key, Read(e.value));
      RestOfItem(more, indent, after, Pair(e.key, Read(e.value)));
      ReadEntriesHead(entries);
    }
  }

  lemma ReadEntriesHead(entries: seq<Entry>)
    requires entries != []
    ensures ReadEntries(entries) == [Pair(entries[0].key, Read(entries[0].value))] + ReadEntries(entries[1..])
  {
  }

  lemma NoChildren(indent: nat)
    ensures RenderChildren(Maps([]), indent) == []
  {
  }

  lemma MapItemHead(e: Entry, indent: nat)
    requires KeyText(e.key) && Proper(e.value)
    ensures var head := Line(indent, "- " + EntryText(e));
            && IsDash(head) && Trim(head.text[2..]) == EntryText(e) != ""
            && IsEntry(EntryText(e)) && KeyOf(EntryText(e)) == e.key
            && RawOf(EntryText(e)) == if e.value.Leaf? then " " + e.value.text else ""
  {
    EntryTextSpec(e);
    DashText(EntryText(e));
    hide EntryText, Trim, IsEntry, KeyOf, StartsWith;
  }

  lemma SwallowedRest(head: Line, rest: seq<Line>, indent: nat, v: Value, after: seq<Line>)
    requires rest != [] && rest[0].indent == indent + 2 && ParseBlock(rest, indent + 2) == (v, after)
    ensures ParseEntry("", [head] + [] + rest, indent) == (v, after)
  {
    HeadTail(head, [], rest);
    assert [] + rest == rest;
    BlankIsBlank();
    hide ParseBlock;
  }

  lemma RestIsDeeper(more: seq<Entry>, indent: nat, after: seq<Line>)
    requires ProperEntries(more) && Below(after, indent + 1)
    ensures Below(RenderEntries(more, indent + 2) + after, indent + 4)
    ensures more == [] ==> Below(RenderEntries(more, indent + 2) + after, indent + 1)
  {
    hide EntryText, KeyText, Proper, RenderChildren, IsDash;
    if more == [] {
      assert [] + after == after;
    } else {
      EntriesStart(more, indent + 2);
    }
  }

  lemma {:induction false} ItemsRead(items: seq<Tree>, indent: nat, acc: seq<Value>, after: seq<Line>)
    requires ProperItems(items) && Below(after, indent)
    ensures ItemLoop(RenderItems(items, indent) + after, indent, acc) == (acc + ReadItems(items), after)
    decreases items, 4
  {
    hide RenderItem, ReadItem, ParseItem, IsDash, ProperItem;
    if items == [] {
      assert [] + after == after && acc + [] == acc;
    } else {
      var rest := RenderItems(items[1..], indent) + after;
      assert RenderItems(items, indent) + after == RenderItem(items[0], indent) + rest;
      ItemsStart(items, indent);
      if |items| > 1 { ItemsStart(items[1..], indent); } else { assert rest == after; }
      ItemReads(items[0], indent, rest);
      ItemsRead(items[1..], indent, acc + [ReadItem(items[0])], after);
      assert acc + [ReadItem(items[0])] + ReadItems(items[1..]) == acc + ReadItems(items);
    }
  }

  // ------------------------------------------------------ from lines to text

  // A line that the splitter gives back as it was rendered.
  ghost predicate Kept(line: Line) {
    line.text != "" && Trimmed(line.text) && NoTerminator(line.text) && line.text[0] != '#'
  }

  ghost predicate AllKept(ls: seq<Line>) {
    forall i | 0 <= i < |ls| :: Kept(ls[i])
  }

  lemma DashIsKept(text: string, indent: nat)
    requires text != "" && Trimmed(text) && NoTerminator(text)
    ensures Kept(Line(indent, "- " + text))
  {
    var s := "- " + text;
    assert s[|s| - 1] == text[|text| - 1];
    assert forall i | 2 <= i < |s| :: s[i] == text[i - 2];
  }

  lemma EntryHasNoTerminator(e: Entry)
    requires KeyText(e.key) && (e.value.Leaf? ==> ScalarText(e.value.text))
    ensures NoTerminator(EntryText(e))
  {
    hide StartsWith, Trimmed;
    var s := EntryText(e);
    assert forall i | 0 <= i < |e.key| :: s[i] == e.key[i];
    if e.value.Leaf? { assert forall i | |e.key| + 2 <= i < |s| :: s[i] == e.value.text[i - |e.key| - 2]; }
  }

  lemma EntryIsKept(e: Entry, indent: nat)
    requires KeyText(e.key) && (e.value.Leaf? ==> ScalarText(e.value.text))
    ensures Kept(Line(indent, EntryText(e))) && Kept(Line(indent, "- " + EntryText(e)))
  {
    EntryTextSpec(e);
    EntryHasNoTerminator(e);
    hide EntryText, NoTerminator, StartsWith, Trim;
    DashIsKept(EntryText(e), indent);
  }

  lemma {:induction false} ChildrenKept(t: Tree, indent: nat)
    requires Proper(t)
    ensures AllKept(RenderChildren(t, indent))
    decreases t, 2
  {
    hide Kept;
    if t.Maps? { EntriesKept(t.entries, indent); }
    if t.Items? { ItemsKept(t.items, indent); }
  }

  lemma {:induction false} EntriesKept(entries: seq<Entry>, indent: nat)
    requires ProperEntries(entries)
    ensures AllKept(RenderEntries(entries, indent))
    decreases entries, 2
  {
    hide Kept, EntryText, KeyText, ScalarText, RenderChildren;
    if entries != [] {
      EntryIsKept(entries[0], indent);
      ChildrenKept(entries[0].value, indent + 2);
      EntriesKept(entries[1..], indent);
    }
  }

  lemma {:induction false} ItemKept(item: Tree, indent: nat)
    requires ProperItem(item)
    ensures AllKept(RenderItem(item, indent))
    decreases item, 3
  {
    hide Kept, EntryText, KeyText, RenderChildren, Trimmed, NoTerminator, RenderEntries;
    if item.Leaf? { DashIsKept(item.text, indent); }
    if item.Maps? {
      var entries := item.entries;
      assert KeyText(entries[0].key) && Proper(entries[0].value) && ProperEntries(entries[1..]);
      EntryIsKept(entries[0], indent);
      ChildrenKept(entries[0].value, indent + 4);
      EntriesKept(entries[1..], indent + 2);
    }
  }

  lemma {:induction false} ItemsKept(items: seq<Tree>, indent: nat)
    requires ProperItems(items)
    ensures AllKept(RenderItems(items, indent))
    decreases items, 4
  {
    hide Kept, ProperItem, RenderItem;
    if items != [] {
      ItemKept(items[0], indent);
      ItemsKept(items[1..], indent);
    }
  }

  lemma {:induction false} SpacesBefore(n: nat, text: string)
    requires text != "" && Trimmed(text)
    ensures var raw := Spaces(n) + text;
            TrimStart(raw) == text && Trim(raw) == text
  {
    TrimFixed(text);
    if n > 0 {
      SpacesBefore(n - 1, text);
      var raw := Spaces(n) + text;
      assert raw[0] == ' ' && raw[1..] == Spaces(n - 1) + text;
    } else {
      assert Spaces(0) + text == text;
    }
  }

  lemma {:induction false} NoNewlineIn(n: nat, text: string)
    requires NoTerminator(text)
    ensures '\n' !in Spaces(n) + text
  {
    if n > 0 { NoNewlineIn(n - 1, text); }
  }

  lemma {:induction false} RawLinesRead(ls: seq<Line>)
    requires AllKept(ls)
    ensures SingleLines(RawLines(ls)) && LinesOf(RawLines(ls)) == ls
  {
    if ls != [] {
      var l := ls[0];
      var raw := Spaces(l.indent) + l.text;
      assert Kept(l);
      SpacesBefore(l.indent, l.text);
      NoNewlineIn(l.indent, l.text);
      hide Spaces, Trim, TrimStart;
      assert AllKept(ls[1..]);
      RawLinesRead(ls[1..]);
      hide Kept;
      assert RawLines(ls)[0] == raw && RawLines(ls)[1..] == RawLines(ls[1..]);
      assert LineOf(raw) == l && Counts(raw);
    }
  }

  // The parser reads exactly Read from the layout of every tree.
  lemma ParserReads(t: Tree)
    requires Proper(t) && !t.Leaf?
    ensures Parse(Render(t)) == Read(t)
  {
    var ls := RenderChildren(t, 0);
    ChildrenKept(t, 0);
    RawLinesRead(ls);
    BlankIsBlank();
    hide RawLines, Kept, KeyText, ScalarText, Scalar, ParseBlock, Trim;
    if ls == [] {
      assert RawLines(ls) == [];
      assert Render(t) == "";
      NoLines();
      if t.Maps? && t.entries != [] { EntriesStart(t.entries, 0); }
      if t.Items? { ItemsStart(t.items, 0); }
    } else {
      SplitJoin(RawLines(ls));
      assert ls + [] == ls;
      if t.Maps? { BlockOfEntries(t.entries, 0, []); } else { BlockOfItems(t.items, 0, []); }
    }
  }

  lemma NoLines()
    ensures RawLines([]) == [] && LinesOf(Split("")) == []
  {
    assert Blank("");
    assert LinesOf([""][1..]) == [];
  }

  // ------------------------------------------------------- the round trip

  // No scalar item looks like an entry, and no item of several entries starts
  // with an empty mapping.
  predicate Faithful(t: Tree)
    decreases t, 0
  {
    match t
    case Leaf(_) => true
    case Maps(entries) => FaithfulEntries(entries)
    case Items(items) => FaithfulItems(items)
  }

  predicate FaithfulEntries(entries: seq<Entry>)
    decreases entries, 0
  {
    entries == [] || (Faithful(entries[0].value) && FaithfulEntries(entries[1..]))
  }

  predicate FaithfulItem(item: Tree)
    decreases item, 1
  {
    match item
    case Leaf(text) => !IsEntry(text)
    case Maps(entries) => !SwallowsRest(entries) && FaithfulEntries(entries)
    case Items(_) => false
  }

  predicate FaithfulItems(items: seq<Tree>)
    decreases items, 0
  {
    items == [] || (FaithfulItem(items[0]) && FaithfulItems(items[1..]))
  }

  lemma ScalarIsNoMap(text: string)
    ensures !Scalar(text).Map?
  {
    hide StripComment, Trim, ScalarParts, IsNumeral, SplitAt, Inside, ToLower;
  }

  lemma {:induction false} ReadIsMeaningIff(t: Tree)
    requires Proper(t)
    ensures Read(t) == Meaning(t) <==> Faithful(t)
    decreases t, 0
  {
    hide Scalar, ScalarText, KeyText;
    if t.Maps? { EntriesAgreeIff(t.entries); }
    if t.Items? { ItemsAgreeIff(t.items); }
  }

  lemma {:induction false} EntriesAgreeIff(entries: seq<Entry>)
    requires ProperEntries(entries)
    ensures ReadEntries(entries) == EntriesMeaning(entries) <==> FaithfulEntries(entries)
    ensures |ReadEntries(entries)| == |EntriesMeaning(entries)| == |entries|
    decreases entries, 0
  {
    hide Read, Meaning, KeyText, Proper, Faithful;
    if entries != [] {
      ReadIsMeaningIff(entries[0].value);
      EntriesAgreeIff(entries[1..]);
      var r, m := ReadEntries(entries), EntriesMeaning(entries);
      assert r[1..] == ReadEntries(entries[1..]) && m[1..] == EntriesMeaning(entries[1..]);
      assert r[0] == Pair(entries[0].key, Read(entries[0].value)) &&
          m[0] == Pair(entries[0].key, Meaning(entries[0].value));
      assert r == m <==> r[0] == m[0] && r[1..] == m[1..] by {
        assert r == [r[0]] + r[1..] && m == [m[0]] + m[1..];
      }
    }
  }

  lemma {:induction false} ItemAgreesIff(item: Tree)
    requires ProperItem(item)
    ensures ReadItem(item) == Meaning(item) <==> FaithfulItem(item)
    decreases item, 1
  {
    hide Scalar, ScalarText, KeyText, IsEntry, KeyOf, RawOf;
    if item.Leaf? { ScalarIsNoMap(item.text); }
    if item.Maps? {
      EntriesAgreeIff(item.entries);
      hide ReadEntries, EntriesMeaning, FaithfulEntries;
      assert |[Pair(item.entries[0].key, Map(ReadEntries(item.entries[1..])))]| == 1;
    }
  }

  lemma {:induction false} ItemsAgreeIff(items: seq<Tree>)
    requires ProperItems(items)
    ensures ReadItems(items) == ItemsMeaning(items) <==> FaithfulItems(items)
    ensures |ReadItems(items)| == |ItemsMeaning(items)| == |items|
    decreases items, 0
  {
    hide ReadItem, Meaning, ProperItem, FaithfulItem;
    if items != [] {
      ItemAgreesIff(items[0]);
      ItemsAgreeIff(items[1..]);
      var r, m := ReadItems(items), ItemsMeaning(items);
      assert r[1..] == ReadItems(items[1..]) && m[1..] == ItemsMeaning(items[1..]);
      assert r[0] == ReadItem(items[0]) && m[0] == Meaning(items[0]);
      assert r == m <==> r[0] == m[0] && r[1..] == m[1..] by {
        assert r == [r[0]] + r[1..] && m == [m[0]] + m[1..];
      }
    }
  }

  // The parser returns the tree whose layout it is given exactly when the tree
  // is faithful: for every mapping or sequence of any depth.
  lemma RoundTripsIff(t: Tree)
    requires Proper(t) && !t.Leaf?
    ensures Parse(Render(t)) == Meaning(t) <==> Faithful(t)
  {
    ParserReads(t);
    ReadIsMeaningIff(t);
  }

  // A scalar item with a colon in it, a URL say, comes back as a mapping.
  lemma ColonItemIsSplit()
    ensures Parse(Render(Items([Leaf("a:b")]))) == Seq([Map([Pair("a", Scalar("b"))])])
  {
    var t := Leaf("a:b");
    ColonOf("a", "b");
    assert "a" + ":" + "b" == "a:b";
    TrimFixed("a");
    TrimFixed("b");
    assert !Blank("b");
    hide Scalar, ColonAt;
    assert ProperItem(t) && ReadItem(t) == Map([Pair("a", Scalar("b"))]);
    OneItem(t);
  }

  lemma OneItem(t: Tree)
    requires ProperItem(t)
    ensures Parse(Render(Items([t]))) == Seq([ReadItem(t)])
  {
    hide ProperItem, ReadItem, RenderItem;
    assert [t][1..] == [];
    assert ReadItems([t][1..]) == [] && ProperItems([t][1..]);
    assert ProperItems([t]) && ReadItems([t]) == [ReadItem(t)] + [];
    ParserReads(Items([t]));
  }

  // An item's empty first mapping takes in the entries that follow it.
  lemma EmptyFirstEntrySwallows()
    ensures Parse(Render(Items([Maps([Entry("a", Maps([])), Entry("b", Leaf("c"))])]))) ==
            Seq([Map([Pair("a", Map([Pair("b", Scalar("c"))]))])])
  {
    var e, f := Entry("a", Maps([])), Entry("b", Leaf("c"));
    var t := Maps([e, f]);
    hide Scalar, StartsWith, Blank;
    DashPrefix("a");
    DashPrefix("b");
    assert KeyText("a") && KeyText("b") && ScalarText("c");
    hide KeyText, ScalarText;
    assert [e, f][1..] == [f] && [f][1..] == [];
    assert ProperEntries([f]);
    assert ProperEntries([]) && Proper(e.value);
    assert [e, f][0] == e && [e, f][1].key == "b" && "b"[0] != "a"[0];
    assert ProperEntries([e, f]);
    assert ProperItem(t);
    assert ReadEntries([f]) == [Pair("b", Scalar("c"))];
    assert ReadItem(t) == Map([Pair("a", Map([Pair("b", Scalar("c"))]))]);
    OneItem(t);
  }

  // An inline comment after a quoted text goes; what is quoted stays, '#' included.
  lemma {:induction false} QuoteRuns(s: string, i: nat, tail: string)
    requires '"' !in s && i <= |s|
    ensures var value := "\"" + s + "\"" + tail;
            CommentStart(value, 1 + i, Some('"')) == CommentStart(value, 1 + |s|, Some('"'))
    decreases |s| - i
  {
    var value := "\"" + s + "\"" + tail;
    if i < |s| {
      assert value[1 + i] == s[i] && s[i] in s;
      QuoteRuns(s, i + 1, tail);
    }
  }

  lemma ScalarOfQuoted(raw: string, s: string)
    requires StripComment(Trim(raw)) == "\"" + s + "\""
    ensures Scalar(raw) == Str(s)
  {
    InsideQuotes(s);
    hide StripComment, Trim;
  }

  lemma QuotedScalar(s: string)
    requires '"' !in s && (s != "" ==> s[|s| - 1] != '\\')
    ensures Scalar("\"" + s + "\"") == Str(s)
  {
    var q := "\"" + s + "\"";
    QuoteCloses(s, "");
    assert q + "" == q && q[..|q|] == q;
    TrimFixed(q);
    hide Scalar, Trim;
    ScalarOfQuoted(q, s);
  }

  lemma CommentIsStripped(q: string, comment: string)
    requires q != "" && !IsSpace(q[|q| - 1])
    requires var value := q + " #" + comment;
             CommentStart(value, 0, None) == CommentStart(value, |q|, None)
    ensures StripComment(q + " #" + comment) == q
  {
    var value := q + " #" + comment;
    assert value[|q|] == ' ' && value[|q| + 1] == '#';
    assert CommentStart(value, |q|, None) == |q| + 1;
    hide CommentStart;
    var kept := q + " ";
    assert value[..|q| + 1] == kept;
    assert kept[|q|] == ' ' && kept[..|q|] == q;
    TrimEndLast(q);
  }

  lemma QuotedScalarWithComment(s: string, comment: string)
    requires '"' !in s && (s != "" ==> s[|s| - 1] != '\\')
    requires comment != "" && Trimmed(comment)
    ensures Scalar("\"" + s + "\"" + " #" + comment) == Str(s)
  {
    var q := "\"" + s + "\"";
    var value := q + " #" + comment;
    assert value == q + (" #" + comment);
    QuoteCloses(s, " #" + comment);
    assert value[0] == '"' && value[|value| - 1] == comment[|comment| - 1];
    TrimFixed(value);
    CommentIsStripped(q, comment);
    hide CommentStart, Scalar, Trim, StripComment;
    ScalarOfQuoted(value, s);
  }

  lemma InsideQuotes(s: string)
    ensures var q := "\"" + s + "\"";
            Delimited(q, '"', '"') && Inside(q) == s
  {
    var q := "\"" + s + "\"";
    assert q[1..|q| - 1] == s;
  }

  lemma QuoteCloses(s: string, tail: string)
    requires '"' !in s && (s != "" ==> s[|s| - 1] != '\\')
    ensures var value := "\"" + s + "\"" + tail;
            CommentStart(value, 0, None) == CommentStart(value, 2 + |s|, None)
  {
    var value := "\"" + s + "\"" + tail;
    QuoteRuns(s, 0, tail);
    assert value[0] == '"' && value[1 + |s|] == '"';
    assert value[|s|] == if s == "" then '"' else s[|s| - 1];
  }
}
