// The configuration parser of server/config-yaml.js: an indentation parser for
// a subset of the block collections of YAML 1.2.2, section 8.2.
module ConfigYaml {
  import opened Text
  import opened Wrappers

  // A numeral is kept as its text.
  datatype Value =
    | Null
    | Bool(b: bool)
    | Num(numeral: string)
    | Str(s: string)
    | Seq(items: seq<Value>)
    | Map(entries: seq<Pair>)

  datatype Pair = Pair(key: string, value: Value)

  datatype Line = Line(indent: nat, text: string)

  // ---------------------------------------------------------------- scalars

  predicate IsQuote(value: string, i: nat)
    requires i < |value|
  {
    (value[i] == '"' || value[i] == '\'') && !(i > 0 && value[i - 1] == '\\')
  }

  // The open quotation mark, if any, after another one.
  function Quoted(quote: Option<char>, c: char): Option<char> {
    if quote == Some(c) then None else if quote.Some? then quote else Some(c)
  }

  predicate IsCommentMark(value: string, i: nat)
    requires i < |value|
  {
    value[i] == '#' && (i == 0 || IsSpace(value[i - 1]))
  }

  // Where an inline comment starts; quote is the open quotation mark, if any.
  function CommentStart(value: string, i: nat, quote: Option<char>): (r: nat)
    requires i <= |value|
    ensures i <= r <= |value|
    decreases |value| - i
  {
    if i == |value| then i
    else if IsQuote(value, i) then CommentStart(value, i + 1, Quoted(quote, value[i]))
    else if quote.None? && IsCommentMark(value, i) then i
    else CommentStart(value, i + 1, quote)
  }

  // The quotation mark that is open before position i.
  function OpenQuote(value: string, i: nat): Option<char>
    requires i <= |value|
  {
    if i == 0 then None
    else
      var before := OpenQuote(value, i - 1);
      if IsQuote(value, i - 1) then Quoted(before, value[i - 1]) else before
  }

  predicate StartsComment(value: string, i: nat)
    requires i < |value|
  {
    IsCommentMark(value, i) && OpenQuote(value, i) == None
  }

  lemma {:induction false} CommentStartFrom(value: string, i: nat)
    requires i <= |value|
    ensures var r := CommentStart(value, i, OpenQuote(value, i));
            && (r < |value| ==> StartsComment(value, r))
            && forall j | i <= j < r :: !StartsComment(value, j)
    decreases |value| - i
  {
    hide IsSpace;
    if i < |value| && !StartsComment(value, i) { CommentStartFrom(value, i + 1); }
  }

  // A comment starts at the first '#' that stands outside quotation marks at the
  // start or after white space; without one nothing but trailing space goes.
  lemma StripCommentSpec(value: string)
    ensures var r := CommentStart(value, 0, None);
            && (r < |value| ==> StartsComment(value, r)) && (forall j | 0 <= j < r :: !StartsComment(value, j))
            && StripComment(value) == TrimEnd(value[..r])
  {
    CommentStartFrom(value, 0);
  }

  function StripComment(value: string): (r: string)
    ensures |r| <= |value|
  {
    TrimEnd(value[..CommentStart(value, 0, None)])
  }

  method StripInlineComment(value: string) returns (r: string)
    ensures r == StripComment(value)
  {
    var quote: Option<char> := None;
    for i := 0 to |value|
      invariant CommentStart(value, i, quote) == CommentStart(value, 0, None)
    {
      if IsQuote(value, i) {
        quote := Quoted(quote, value[i]);
        continue;
      }
      if quote.None? && IsCommentMark(value, i) {
        return TrimEnd(value[..i]);
      }
    }
    assert value[..|value|] == value;
    return TrimEnd(value);
  }

  predicate IsDigit(c: char) {
    '0' <= c <= '9'
  }

  function DigitRun(s: string): (n: nat)
    ensures n <= |s|
  {
    if s == "" || !IsDigit(s[0]) then 0 else 1 + DigitRun(s[1..])
  }

  // /^-?\d+(\.\d+)?$/
  predicate IsNumeral(s: string) {
    var t := if s != "" && s[0] == '-' then s[1..] else s;
    var n := DigitRun(t);
    && n > 0
    && (n == |t| || (t[n] == '.' && n + 1 < |t| && DigitRun(t[n + 1..]) == |t| - n - 1))
  }

  function SplitAt(s: string, c: char): (r: seq<string>)
    ensures |r| > 0
  {
    if s == "" then [""]
    else
      var rest := SplitAt(s[1..], c);
      if s[0] == c then [""] + rest else [[s[0]] + rest[0]] + rest[1..]
  }

  lemma {:induction false} SplitAtShortens(s: string, c: char)
    ensures forall i | 0 <= i < |SplitAt(s, c)| :: |SplitAt(s, c)[i]| <= |s|
  {
    if s != "" { SplitAtShortens(s[1..], c); }
  }

  predicate Delimited(value: string, open: char, close: char) {
    value != "" && value[0] == open && value[|value| - 1] == close
  }

  // slice(1, -1)
  function Inside(value: string): (r: string)
    requires value != ""
    ensures |r| < |value|
  {
    if |value| == 1 then "" else value[1..|value| - 1]
  }

  // parseScalar
  function Scalar(raw: string): Value
    decreases |raw|, 2, 0
  {
    TrimShortens(raw);
    CleanScalar(StripComment(Trim(raw)), |raw|)
  }

  function CleanScalar(value: string, bound: nat): Value
    requires |value| <= bound
    decreases bound, 1, 0
  {
    if value == "" then Str("")
    else if Delimited(value, '"', '"') || Delimited(value, '\'', '\'') then Str(Inside(value))
    else if ToLower(value) == "true" || ToLower(value) == "yes" then Bool(true)
    else if ToLower(value) == "false" || ToLower(value) == "no" then Bool(false)
    else if ToLower(value) == "null" then Null
    else if IsNumeral(value) then Num(value)
    else if Delimited(value, '[', ']') then
      SplitAtShortens(Inside(value), ',');
      Seq(ScalarParts(SplitAt(Inside(value), ','), bound))
    else Str(value)
  }

  function ScalarParts(parts: seq<string>, bound: nat): seq<Value>
    requires forall i | 0 <= i < |parts| :: |parts[i]| < bound
    decreases bound, 0, |parts|
  {
    if parts == [] then []
    else
      TrimShortens(parts[0]);
      var v := Scalar(Trim(parts[0]));
      (if v == Str("") then [] else [v]) + ScalarParts(parts[1..], bound)
  }

  // ------------------------------------------------------------------ lines

  predicate Counts(rawLine: string) {
    !Blank(rawLine) && TrimStart(rawLine)[0] != '#'
  }

  function LineOf(rawLine: string): Line {
    TrimStartSuffix(rawLine);
    Line(|rawLine| - |TrimStart(rawLine)|, Trim(rawLine))
  }

  function LinesOf(rawLines: seq<string>): seq<Line> {
    if rawLines == [] then []
    else (if Counts(rawLines[0]) then [LineOf(rawLines[0])] else []) + LinesOf(rawLines[1..])
  }

  // ----------------------------------------------------------------- parser

  function Find(entries: seq<Pair>, key: string): (i: nat)
    ensures i <= |entries| && (i < |entries| ==> entries[i].key == key)
  {
    if entries == [] || entries[0].key == key then 0 else 1 + Find(entries[1..], key)
  }

  // target[key] = value
  function Set(entries: seq<Pair>, key: string, value: Value): seq<Pair> {
    var i := Find(entries, key);
    if i < |entries| then entries[i := Pair(key, value)] else entries + [Pair(key, value)]
  }

  // Object.assign
  function Assign(entries: seq<Pair>, more: seq<Pair>): seq<Pair>
    decreases |more|
  {
    if more == [] then entries else Assign(Set(entries, more[0].key, more[0].value), more[1..])
  }

  function ColonAt(s: string): (i: nat)
    ensures i <= |s|
  {
    if s == "" || s[0] == ':' then 0 else 1 + ColonAt(s[1..])
  }

  // /^([^:]+):(.*)$/
  predicate IsEntry(s: string) {
    var i := ColonAt(s);
    0 < i < |s| && NoTerminator(s[i + 1..])
  }

  function KeyOf(s: string): string {
    Trim(s[..ColonAt(s)])
  }

  function RawOf(s: string): string {
    if ColonAt(s) < |s| then s[ColonAt(s) + 1..] else ""
  }

  predicate IsDash(line: Line) {
    StartsWith(line.text, "- ")
  }

  // parseBlock, parseMappingEntry and the three loops on the lines that are left.
  // Each result is what was parsed and the lines after it.
  function ParseBlock(ls: seq<Line>, indent: nat): (r: (Value, seq<Line>))
    requires ls != [] && ls[0].indent == indent
    ensures |r.1| < |ls|
    decreases |ls|, 3
  {
    if IsDash(ls[0]) then
      var s := ItemLoop(ls, indent, []);
      (Seq(s.0), s.1)
    else
      var m := EntryLoop(ls, indent, []);
      (Map(m.0), m.1)
  }

  function ItemLoop(ls: seq<Line>, indent: nat, items: seq<Value>): (r: (seq<Value>, seq<Line>))
    ensures |r.1| <= |ls|
    ensures ls != [] && ls[0].indent == indent && IsDash(ls[0]) ==> |r.1| < |ls|
    decreases |ls|, 2
  {
    if ls == [] || ls[0].indent != indent || !IsDash(ls[0]) then (items, ls)
    else
      var i := ParseItem(ls, indent);
      ItemLoop(i.1, indent, items + [i.0])
  }

  function ParseItem(ls: seq<Line>, indent: nat): (r: (Value, seq<Line>))
    requires ls != [] && IsDash(ls[0])
    ensures |r.1| < |ls|
    decreases |ls|, 1
  {
    var itemText := Trim(ls[0].text[2..]);
    if itemText == "" then
      if |ls| < 2 || ls[1].indent <= indent then (Null, ls[1..]) else ParseBlock(ls[1..], ls[1].indent)
    else if !IsEntry(itemText) then (Scalar(itemText), ls[1..])
    else
      var e := ParseEntry(RawOf(itemText), ls, indent);
      var c := Continuation(e.1, indent, Set([], KeyOf(itemText), e.0));
      (Map(c.0), c.1)
  }

  function Continuation(ls: seq<Line>, indent: nat, item: seq<Pair>): (r: (seq<Pair>, seq<Line>))
    ensures |r.1| <= |ls|
    decreases |ls|, 4
  {
    if ls == [] || ls[0].indent <= indent then (item, ls)
    else
      var b := ParseBlock(ls, ls[0].indent);
      Continuation(b.1, indent, if b.0.Map? then Assign(item, b.0.entries) else item)
  }

  function EntryLoop(ls: seq<Line>, indent: nat, entries: seq<Pair>): (r: (seq<Pair>, seq<Line>))
    ensures |r.1| <= |ls|
    ensures ls != [] && ls[0].indent == indent && !IsDash(ls[0]) ==> |r.1| < |ls|
    decreases |ls|, 2
  {
    if ls == [] || ls[0].indent != indent || IsDash(ls[0]) then (entries, ls)
    else if !IsEntry(ls[0].text) then EntryLoop(ls[1..], indent, entries)
    else
      var e := ParseEntry(RawOf(ls[0].text), ls, indent);
      EntryLoop(e.1, indent, Set(entries, KeyOf(ls[0].text), e.0))
  }

  function ParseEntry(rawValue: string, ls: seq<Line>, indent: nat): (r: (Value, seq<Line>))
    requires ls != []
    ensures |r.1| < |ls|
    decreases |ls|, 0
  {
    if !Blank(rawValue) then (Scalar(rawValue), ls[1..])
    else if |ls| < 2 || ls[1].indent <= indent then (Map([]), ls[1..])
    else ParseBlock(ls[1..], ls[1].indent)
  }

  function ParseLines(ls: seq<Line>): Value {
    if ls == [] then Map([]) else ParseBlock(ls, ls[0].indent).0
  }

  function Parse(text: string): Value {
    ParseLines(LinesOf(Split(text)))
  }

  // The parser itself: every call that parses a block moves the index forward,
  // so it ends on every input.
  method ParseMappingEntry(lines: seq<Line>, rawValue: string, index: nat, indent: nat)
      returns (value: Value, next: nat)
    requires index < |lines|
    ensures index < next <= |lines|
    ensures (value, lines[next..]) == ParseEntry(rawValue, lines[index..], indent)
    decreases |lines| - index, 0
  {
    assert lines[index..][1..] == lines[index + 1..];
    if !Blank(rawValue) { return Scalar(rawValue), index + 1; }
    if index + 1 >= |lines| || lines[index + 1].indent <= indent { return Map([]), index + 1; }
    value, next := ParseBlockAt(lines, index + 1, lines[index + 1].indent);
  }

  method ParseBlockAt(lines: seq<Line>, startIndex: nat, indent: nat) returns (value: Value, index: nat)
    requires startIndex < |lines| && lines[startIndex].indent == indent
    ensures startIndex < index <= |lines|
    ensures (value, lines[index..]) == ParseBlock(lines[startIndex..], indent)
    decreases |lines| - startIndex, 2
  {
    hide ParseItem, ParseEntry, IsEntry, KeyOf, RawOf, Set;
    ghost var all := lines[startIndex..];
    assert all[0] == lines[startIndex];
    index := startIndex;
    if IsDash(lines[startIndex]) {
      var items: seq<Value> := [];
      while index < |lines| && lines[index].indent == indent && IsDash(lines[index])
        invariant startIndex <= index <= |lines|
        invariant ItemLoop(lines[index..], indent, items) == ItemLoop(all, indent, [])
        invariant index == startIndex ==> lines[index] == all[0]
        decreases |lines| - index
      {
        assert lines[index..][0] == lines[index];
        var item;
        item, index := ParseItemAt(lines, index, indent);
        items := items + [item];
      }
      value := Seq(items);
    } else {
      var entries: seq<Pair> := [];
      while index < |lines| && lines[index].indent == indent && !IsDash(lines[index])
        invariant startIndex <= index <= |lines|
        invariant EntryLoop(lines[index..], indent, entries) == EntryLoop(all, indent, [])
        invariant index == startIndex ==> lines[index] == all[0]
        decreases |lines| - index
      {
        var text := lines[index].text;
        assert lines[index..][0] == lines[index] && lines[index..][1..] == lines[index + 1..];
        if !IsEntry(text) {
          index := index + 1;
          continue;
        }
        var child;
        child, index := ParseMappingEntry(lines, RawOf(text), index, indent);
        entries := Set(entries, KeyOf(text), child);
      }
      value := Map(entries);
    }
  }

  // One turn of the loop over a sequence's items.
  method ParseItemAt(lines: seq<Line>, start: nat, indent: nat) returns (value: Value, index: nat)
    requires start < |lines| && IsDash(lines[start])
    ensures start < index <= |lines|
    ensures (value, lines[index..]) == ParseItem(lines[start..], indent)
    decreases |lines| - start, 1
  {
    hide IsEntry, KeyOf, RawOf, Set, Assign;
    ghost var ls := lines[start..];
    assert ls[0] == lines[start] && ls[1..] == lines[start + 1..];
    var itemText := Trim(lines[start].text[2..]);
    if itemText == "" {
      if start + 1 >= |lines| || lines[start + 1].indent <= indent { return Null, start + 1; }
      value, index := ParseBlockAt(lines, start + 1, lines[start + 1].indent);
      return;
    }
    if !IsEntry(itemText) { return Scalar(itemText), start + 1; }
    var first;
    first, index := ParseMappingEntry(lines, RawOf(itemText), start, indent);
    ghost var rest := lines[index..];
    var item := Set([], KeyOf(itemText), first);
    ghost var item0 := item;
    while index < |lines| && lines[index].indent > indent
      invariant start < index <= |lines|
      invariant Continuation(lines[index..], indent, item) == Continuation(rest, indent, item0)
      decreases |lines| - index
    {
      assert lines[index..][0] == lines[index];
      var continuation;
      continuation, index := ParseBlockAt(lines, index, lines[index].indent);
      if continuation.Map? { item := Assign(item, continuation.entries); }
    }
    value := Map(item);
  }

  method ParseSimpleYaml(text: string) returns (value: Value)
    ensures value == Parse(text)
  {
    var lines := LinesOf(Split(text));
    if lines == [] { return Map([]); }
    var index;
    value, index := ParseBlockAt(lines, 0, lines[0].indent);
    assert lines[0..] == lines;
  }
}
