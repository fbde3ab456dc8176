// Configuration values written out in the canonical block layout, strings in
// quotation marks, and read back by the parser.
module ConfigYamlValues {
  import opened Text
  import opened Wrappers
  import opened ConfigYaml
  import opened ConfigYamlRoundTrip

  function Quoted(s: string): string {
    "\"" + s + "\""
  }

  function Layout(v: Value): Tree
    decreases v, 0
  {
    match v
    case Null => Leaf("null")
    case Bool(b) => Leaf(if b then "true" else "false")
    case Num(numeral) => Leaf(numeral)
    case Str(s) => Leaf(Quoted(s))
    case Seq(items) => if items == [] then Leaf("[]") else Items(LayoutItems(items))
    case Map(entries) => Maps(LayoutEntries(entries))
  }

  function LayoutItems(items: seq<Value>): (r: seq<Tree>)
    ensures |r| == |items|
    decreases items, 0
  {
    if items == [] then [] else [Layout(items[0])] + LayoutItems(items[1..])
  }

  function LayoutEntries(entries: seq<Pair>): (r: seq<Entry>)
    ensures |r| == |entries|
    decreases entries, 0
  {
    if entries == [] then [] else [Entry(entries[0].key, Layout(entries[0].value))] + LayoutEntries(entries[1..])
  }

  // ------------------------------------------------- values with a layout

  ghost predicate Quotable(s: string) {
    '"' !in s && NoTerminator(s) && (s != "" ==> s[|s| - 1] != '\\')
  }

  ghost predicate Writable(v: Value)
    decreases v, 0
  {
    match v
    case Null => true
    case Bool(_) => true
    case Num(numeral) => IsNumeral(numeral)
    case Str(s) => Quotable(s)
    case Seq(items) => WritableItems(items)
    case Map(entries) => WritableEntries(entries)
  }

  // An item is no list with items of its own and no empty mapping.
  ghost predicate WritableItems(items: seq<Value>)
    decreases items, 0
  {
    items == [] ||
    (Writable(items[0]) && (items[0].Seq? ==> items[0].items == []) && items[0] != Map([]) && WritableItems(items[1..]))
  }

  ghost predicate WritableEntries(entries: seq<Pair>)
    decreases entries, 0
  {
    entries == [] ||
    (&& KeyText(entries[0].key) && Writable(entries[0].value)
     && (forall i | 1 <= i < |entries| :: entries[i].key != entries[0].key)
     && WritableEntries(entries[1..]))
  }

  // What must not be among the items of a list: a string with a colon, and a
  // mapping whose first of several entries is an empty mapping.
  predicate ReadsBack(v: Value)
    decreases v, 0
  {
    match v
    case Seq(items) => ItemsReadBack(items)
    case Map(entries) => EntriesReadBack(entries)
    case _ => true
  }

  predicate EntriesReadBack(entries: seq<Pair>)
    decreases entries, 0
  {
    entries == [] || (ReadsBack(entries[0].value) && EntriesReadBack(entries[1..]))
  }

  predicate ItemReadsBack(v: Value)
    decreases v, 1
  {
    match v
    case Str(s) => ':' !in s
    case Map(entries) => !(|entries| > 1 && entries[0].value == Map([])) && EntriesReadBack(entries)
    case _ => true
  }

  predicate ItemsReadBack(items: seq<Value>)
    decreases items, 0
  {
    items == [] || (ItemReadsBack(items[0]) && ItemsReadBack(items[1..]))
  }

  // ---------------------------------------------------------------- scalars

  lemma NullScalar()
    ensures Scalar("null") == Null && ScalarText("null")
  {
    Word("null");
    hide StripComment, Trim, IsNumeral, ScalarParts, SplitAt, Inside, ToLower, ScalarText;
  }

  lemma TrueScalar()
    ensures Scalar("true") == Bool(true) && ScalarText("true")
  {
    Word("true");
    hide StripComment, Trim, IsNumeral, ScalarParts, SplitAt, Inside, ToLower, ScalarText;
  }

  lemma FalseScalar()
    ensures Scalar("false") == Bool(false) && ScalarText("false")
  {
    Word("false");
    hide StripComment, Trim, IsNumeral, ScalarParts, SplitAt, Inside, ToLower, ScalarText;
  }

  lemma Word(s: string)
    requires s in ["null", "true", "false"]
    ensures StripComment(Trim(s)) == s && ToLower(s) == s && ScalarText(s)
  {
    assert forall i | 0 <= i < |s| :: 'a' <= s[i] <= 'z';
    TrimFixed(s);
    PlainComment(s, 0);
    assert s[..|s|] == s;
  }

  // Text without quotation marks and hashes has no comment.
  lemma {:induction false} PlainComment(s: string, i: nat)
    requires i <= |s| && forall c | c in s :: c != '"' && c != '\'' && c != '#'
    ensures CommentStart(s, i, None) == |s|
    decreases |s| - i
  {
    if i < |s| {
      assert s[i] in s;
      PlainComment(s, i + 1);
    }
  }

  predicate NumeralChar(c: char) {
    IsDigit(c) || c == '-' || c == '.'
  }

  lemma {:induction false} DigitRunSpec(s: string)
    ensures forall i | 0 <= i < DigitRun(s) :: IsDigit(s[i])
  {
    if s != "" && IsDigit(s[0]) {
      DigitRunSpec(s[1..]);
      assert forall i | 1 <= i < DigitRun(s) :: s[i] == s[1..][i - 1];
    }
  }

  lemma NumeralChars(s: string)
    requires IsNumeral(s)
    ensures s != "" && forall i | 0 <= i < |s| :: NumeralChar(s[i])
    ensures IsDigit(s[|s| - 1])
  {
    var t := if s != "" && s[0] == '-' then s[1..] else s;
    var n := DigitRun(t);
    DigitRunSpec(t);
    if n < |t| {
      DigitRunSpec(t[n + 1..]);
      assert forall i | n < i < |t| :: t[i] == t[n + 1..][i - n - 1];
    }
    assert forall i | 0 <= i < |t| :: NumeralChar(t[i]);
    assert IsDigit(t[|t| - 1]);
    assert forall i | 0 <= i < |s| :: s[i] == if |t| == |s| then t[i] else if i == 0 then '-' else t[i - 1];
  }

  lemma NumeralScalar(s: string)
    requires IsNumeral(s)
    ensures Scalar(s) == Num(s) && ScalarText(s) && ':' !in s
  {
    NumeralChars(s);
    TrimFixed(s);
    PlainComment(s, 0);
    assert s[..|s|] == s;
    var l := ToLower(s);
    assert l[|s| - 1] == s[|s| - 1];
    assert l[|l| - 1] != "true"[3] && l[|l| - 1] != "yes"[2] && l[|l| - 1] != "false"[4] && l[|l| - 1] != "no"[1];
    assert l[|l| - 1] != "null"[3];
    hide CommentStart, Trim, IsNumeral, ToLower;
  }

  lemma BracketsAreText()
    ensures Trim("[]") == "[]" && StripComment("[]") == "[]" && ScalarText("[]") && !IsEntry("[]")
  {
    hide ToLower;
    TrimFixed("[]");
    PlainComment("[]", 0);
    assert "[]"[..2] == "[]";
  }

  lemma BracketsAreList()
    ensures CleanScalar("[]", 2) == Seq(ScalarParts([""], 2))
  {
    hide ScalarParts, Scalar, Trim;
    assert ToLower("[]")[0] == '[';
    assert Inside("[]") == "";
    assert SplitAt("", ',') == [""];
  }

  lemma EmptyListScalar()
    ensures Scalar("[]") == Seq([]) && ScalarText("[]") && !IsEntry("[]")
  {
    hide CommentStart, Trim, ToLower, ScalarParts, CleanScalar, StripComment, ScalarText, IsEntry;
    BracketsAreText();
    BracketsAreList();
    EmptyParts();
  }

  lemma EmptyParts()
    ensures ScalarParts([""], 2) == []
  {
    assert Scalar("") == Str("") by { assert Trim("") == ""; }
    assert [""][1..] == [];
  }

  lemma QuotedText(s: string)
    requires Quotable(s)
    ensures Scalar(Quoted(s)) == Str(s) && ScalarText(Quoted(s))
  {
    QuotedScalar(s);
    var q := Quoted(s);
    assert forall i | 1 <= i <= |s| :: q[i] == s[i - 1];
    hide Scalar;
  }

  lemma {:induction false} ColonAtSpec(s: string)
    ensures ColonAt(s) < |s| <==> ':' in s
    ensures s != "" && s[0] != ':' ==> ColonAt(s) > 0
  {
    if s != "" && s[0] != ':' { ColonAtSpec(s[1..]); }
  }

  lemma QuotedEntryIff(s: string)
    requires Quotable(s)
    ensures IsEntry(Quoted(s)) <==> ':' in s
  {
    var q := Quoted(s);
    ColonAtSpec(q);
    assert forall i | 1 <= i <= |s| :: q[i] == s[i - 1];
    assert ':' in q <==> ':' in s;
  }

  lemma NoColonNoEntry(s: string)
    requires ':' !in s
    ensures !IsEntry(s)
  {
    ColonAtSpec(s);
  }

  lemma ScalarLeaf(v: Value)
    requires Writable(v) && !v.Map? && (v.Seq? ==> v.items == [])
    ensures Layout(v).Leaf? && ScalarText(Layout(v).text) && Scalar(Layout(v).text) == v
    ensures IsEntry(Layout(v).text) <==> !ItemReadsBack(v)
  {
    match v
    case Null => NullScalar(); NoColonNoEntry("null");
    case Bool(b) => TrueScalar(); FalseScalar(); NoColonNoEntry("true"); NoColonNoEntry("false");
    case Num(numeral) => NumeralScalar(numeral); NoColonNoEntry(numeral);
    case Str(s) => QuotedText(s); QuotedEntryIff(s);
    case Seq(_) => EmptyListScalar();
  }

  // ------------------------------------------------------------ whole values

  lemma {:induction false} LayoutSpec(v: Value)
    requires Writable(v)
    ensures Proper(Layout(v)) && Meaning(Layout(v)) == v && (Faithful(Layout(v)) <==> ReadsBack(v))
    decreases v, 0
  {
    hide Scalar, ScalarText, KeyText, IsEntry, Quoted, IsNumeral, Quotable;
    if v.Map? {
      EntriesSpec(v.entries);
    } else if v.Seq? && v.items != [] {
      ItemsSpec(v.items);
    } else {
      ScalarLeaf(v);
    }
  }

  lemma {:induction false} EntriesSpec(entries: seq<Pair>)
    requires WritableEntries(entries)
    ensures var es := LayoutEntries(entries);
            ProperEntries(es) && EntriesMeaning(es) == entries && (FaithfulEntries(es) <==> EntriesReadBack(entries))
    decreases entries, 0
  {
    hide KeyText, Proper, Meaning, Faithful, Writable, ReadsBack, Layout;
    if entries != [] {
      LayoutSpec(entries[0].value);
      EntriesSpec(entries[1..]);
      var es := LayoutEntries(entries);
      assert es[1..] == LayoutEntries(entries[1..]);
      KeysOfLayout(entries);
      assert entries == [entries[0]] + entries[1..] && Pair(entries[0].key, entries[0].value) == entries[0];
    }
  }

  lemma {:induction false} KeysOfLayout(entries: seq<Pair>)
    ensures forall i | 0 <= i < |entries| :: LayoutEntries(entries)[i].key == entries[i].key
  {
    hide Layout;
    if entries != [] { KeysOfLayout(entries[1..]); }
  }

  lemma {:induction false} ItemSpec(v: Value)
    requires Writable(v) && (v.Seq? ==> v.items == []) && v != Map([])
    ensures ProperItem(Layout(v)) && Meaning(Layout(v)) == v && (FaithfulItem(Layout(v)) <==> ItemReadsBack(v))
    decreases v, 1
  {
    hide Scalar, ScalarText, KeyText, IsEntry, Quoted, IsNumeral, Quotable;
    if v.Map? {
      EntriesSpec(v.entries);
      FirstIsEmptyIff(v.entries[0].value);
    } else {
      ScalarLeaf(v);
    }
  }

  lemma FirstIsEmptyIff(v: Value)
    ensures Layout(v) == Maps([]) <==> v == Map([])
  {
    if v.Map? { assert |LayoutEntries(v.entries)| == |v.entries|; }
  }

  lemma {:induction false} ItemsSpec(items: seq<Value>)
    requires WritableItems(items)
    ensures var ts := LayoutItems(items);
            ProperItems(ts) && ItemsMeaning(ts) == items && (FaithfulItems(ts) <==> ItemsReadBack(items))
    decreases items, 0
  {
    hide ProperItem, Meaning, FaithfulItem, Writable, ItemReadsBack, Layout;
    if items != [] {
      ItemSpec(items[0]);
      ItemsSpec(items[1..]);
      var ts := LayoutItems(items);
      assert ts[1..] == LayoutItems(items[1..]);
      assert items == [items[0]] + items[1..];
    }
  }

  // A configuration that is written out with its strings quoted is read back as
  // it was exactly when no item of a list is a string with a colon or a mapping
  // whose first of several entries is an empty mapping.
  lemma ValueReadsBackIff(v: Value)
    requires Writable(v) && (v.Map? || (v.Seq? && v.items != []))
    ensures Parse(Render(Layout(v))) == v <==> ReadsBack(v)
  {
    hide Parse, Render, Proper, Meaning, Faithful, ReadsBack, Writable;
    LayoutSpec(v);
    RoundTripsIff(Layout(v));
  }
}
