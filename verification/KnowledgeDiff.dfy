// renderKnowledgeDiff of server/knowledge-space.js: a line diff by a table of
// longest common subsequences of suffixes, and the walk through it.
module KnowledgeDiff {
  import opened Text

  // One table row; its cells are the line number, the published and the proposed line.
  datatype Row =
    | Same(number: nat, before: string, after: string)
    | Added(after: string)
    | Removed(number: nat, before: string)

  // The lines a text shows in one column.
  function BeforeSide(rows: seq<Row>): seq<string> {
    if rows == [] then []
    else
      var r := rows[|rows| - 1];
      BeforeSide(rows[..|rows| - 1]) + (if r.Added? then [] else [r.before])
  }

  function AfterSide(rows: seq<Row>): seq<string> {
    if rows == [] then []
    else
      var r := rows[|rows| - 1];
      AfterSide(rows[..|rows| - 1]) + (if r.Removed? then [] else [r.after])
  }

  function SameLines(rows: seq<Row>): seq<string> {
    if rows == [] then []
    else
      var r := rows[|rows| - 1];
      SameLines(rows[..|rows| - 1]) + (if r.Same? then [r.before] else [])
  }

  // Same rows repeat one line in both columns, and numbers count the published lines.
  ghost predicate Sound(rows: seq<Row>) {
    rows == [] ||
    var init, r := rows[..|rows| - 1], rows[|rows| - 1];
    && Sound(init)
    && (r.Same? ==> r.before == r.after)
    && (!r.Added? ==> r.number == |BeforeSide(init)| + 1)
  }

  lemma PushRow(rows: seq<Row>, r: Row)
    ensures BeforeSide(rows + [r]) == BeforeSide(rows) + (if r.Added? then [] else [r.before])
    ensures AfterSide(rows + [r]) == AfterSide(rows) + (if r.Removed? then [] else [r.after])
    ensures SameLines(rows + [r]) == SameLines(rows) + (if r.Same? then [r.before] else [])
    ensures Sound(rows) && (r.Same? ==> r.before == r.after) && (!r.Added? ==> r.number == |BeforeSide(rows)| + 1) ==>
              Sound(rows + [r])
  {
    assert (rows + [r])[..|rows|] == rows;
  }

  // -------------------------------------------------- common subsequences

  // w can be had from s by leaving lines out.
  ghost predicate Subsequence(w: seq<string>, s: seq<string>) {
    w == [] ||
    (s != [] && ((w[0] == s[0] && Subsequence(w[1..], s[1..])) || Subsequence(w, s[1..])))
  }

  function Max(x: nat, y: nat): nat {
    if x >= y then x else y
  }

  // The entry of the table for the suffixes from i and from j.
  function Lcs(a: seq<string>, b: seq<string>, i: nat, j: nat): nat
    requires i <= |a| && j <= |b|
    decreases |a| - i + |b| - j
  {
    if i == |a| || j == |b| then 0
    else if a[i] == b[j] then Lcs(a, b, i + 1, j + 1) + 1
    else Max(Lcs(a, b, i + 1, j), Lcs(a, b, i, j + 1))
  }

  lemma {:induction false} SubsequenceTail(w: seq<string>, s: seq<string>)
    requires Subsequence(w, s) && w != []
    ensures s != [] && Subsequence(w[1..], s[1..])
    ensures w[0] != s[0] ==> Subsequence(w, s[1..])
  {
    if !(w[0] == s[0] && Subsequence(w[1..], s[1..])) {
      SubsequenceTail(w, s[1..]);
      SubsequenceLater(w[1..], s[1..]);
    }
  }

  lemma SubsequenceLater(w: seq<string>, s: seq<string>)
    requires s != [] && Subsequence(w, s[1..])
    ensures Subsequence(w, s)
  {
  }

  // No common subsequence of the two suffixes is longer than the table entry.
  lemma {:induction false} LcsIsBound(a: seq<string>, b: seq<string>, i: nat, j: nat, w: seq<string>)
    requires i <= |a| && j <= |b| && Subsequence(w, a[i..]) && Subsequence(w, b[j..])
    ensures |w| <= Lcs(a, b, i, j)
    decreases |a| - i + |b| - j
  {
    if w != [] {
      SubsequenceTail(w, a[i..]);
      SubsequenceTail(w, b[j..]);
      assert a[i..][1..] == a[i + 1..] && b[j..][1..] == b[j + 1..];
      if a[i] == b[j] {
        LcsIsBound(a, b, i + 1, j + 1, w[1..]);
      } else if w[0] != a[i] {
        LcsIsBound(a, b, i + 1, j, w);
      } else {
        LcsIsBound(a, b, i, j + 1, w);
      }
    }
  }

  lemma {:induction false} SubsequenceSnoc(w: seq<string>, s: seq<string>, x: string)
    requires Subsequence(w, s)
    ensures Subsequence(w, s + [x]) && Subsequence(w + [x], s + [x])
  {
    if s == [] {
      assert w + [x] == [x] && s + [x] == [x];
    } else {
      assert (s + [x])[1..] == s[1..] + [x];
      if w == [] {
        SubsequenceSnoc(w, s[1..], x);
      } else if w[0] == s[0] && Subsequence(w[1..], s[1..]) {
        SubsequenceSnoc(w[1..], s[1..], x);
        assert (w + [x])[1..] == w[1..] + [x];
      } else {
        SubsequenceSnoc(w, s[1..], x);
      }
    }
  }

  // The lines of the same rows are common to both columns.
  lemma {:induction false} SameLinesAreCommon(rows: seq<Row>)
    requires Sound(rows)
    ensures Subsequence(SameLines(rows), BeforeSide(rows)) && Subsequence(SameLines(rows), AfterSide(rows))
  {
    if rows != [] {
      var init, r := rows[..|rows| - 1], rows[|rows| - 1];
      SameLinesAreCommon(init);
      if !r.Added? { SubsequenceSnoc(SameLines(init), BeforeSide(init), r.before); }
      if !r.Removed? { SubsequenceSnoc(SameLines(init), AfterSide(init), r.after); }
      assert SameLines(init) + [] == SameLines(init);
      assert BeforeSide(init) + [] == BeforeSide(init) && AfterSide(init) + [] == AfterSide(init);
    }
  }

  lemma LcsAt(a: seq<string>, b: seq<string>, i: nat, j: nat)
    requires i <= |a| && j <= |b|
    ensures i == |a| || j == |b| ==> Lcs(a, b, i, j) == 0
    ensures i < |a| && j < |b| && a[i] == b[j] ==> Lcs(a, b, i, j) == Lcs(a, b, i + 1, j + 1) + 1
    ensures i < |a| && j < |b| && a[i] != b[j] ==> Lcs(a, b, i, j) == Max(Lcs(a, b, i + 1, j), Lcs(a, b, i, j + 1))
  {
  }

  // -------------------------------------------------------------- the diff

  // Row `i` of the table holds the entries for the suffixes from i.
  ghost predicate RowDone(dp: array2<nat>, a: seq<string>, b: seq<string>, i: nat)
    requires dp.Length0 == |a| + 1 && dp.Length1 == |b| + 1 && i <= |a|
    reads dp
  {
    forall j: nat | j <= |b| :: dp[i, j] == Lcs(a, b, i, j)
  }

  method FillRow(dp: array2<nat>, a: seq<string>, b: seq<string>, left: nat)
    requires dp.Length0 == |a| + 1 && dp.Length1 == |b| + 1 && left < |a|
    requires RowDone(dp, a, b, left + 1) && dp[left, |b|] == 0
    modifies dp
    ensures RowDone(dp, a, b, left)
    ensures forall i: nat, j: nat | i <= |a| && j <= |b| && i != left :: dp[i, j] == old(dp[i, j])
  {
    LcsAt(a, b, left, |b|);
    hide Lcs;
    for right := |b| downto 0
      invariant forall j: nat | right <= j <= |b| :: dp[left, j] == Lcs(a, b, left, j)
      invariant forall i: nat, j: nat | i <= |a| && j <= |b| && i != left :: dp[i, j] == old(dp[i, j])
    {
      LcsAt(a, b, left, right);
      dp[left, right] := if a[left] == b[right] then dp[left + 1, right + 1] + 1
                         else Max(dp[left + 1, right], dp[left, right + 1]);
    }
  }

  method FillTable(a: seq<string>, b: seq<string>) returns (dp: array2<nat>)
    ensures fresh(dp) && dp.Length0 == |a| + 1 && dp.Length1 == |b| + 1
    ensures forall i: nat | i <= |a| :: RowDone(dp, a, b, i)
  {
    dp := new nat[|a| + 1, |b| + 1]((i, j) => 0);
    assert RowDone(dp, a, b, |a|);
    hide Lcs;
    for left := |a| downto 0
      invariant forall i: nat | left <= i <= |a| :: RowDone(dp, a, b, i)
      invariant forall i: nat | i < left :: dp[i, |b|] == 0
    {
      label before:
      FillRow(dp, a, b, left);
      forall i: nat | left < i <= |a| ensures RowDone(dp, a, b, i) {
        assert old@before(RowDone(dp, a, b, i));
      }
    }
  }

  // The diff shows every line of each text once and in order, and keeps as many
  // lines the same as any common subsequence of the two texts has.
  method RenderKnowledgeDiff(before: string, after: string) returns (rows: seq<Row>)
    ensures Sound(rows)
    ensures BeforeSide(rows) == Split(NormalizeNewline(before)) && Join(BeforeSide(rows)) == NormalizeNewline(before)
    ensures AfterSide(rows) == Split(NormalizeNewline(after)) && Join(AfterSide(rows)) == NormalizeNewline(after)
    ensures forall w | Subsequence(w, BeforeSide(rows)) && Subsequence(w, AfterSide(rows)) :: |w| <= |SameLines(rows)|
    ensures Subsequence(SameLines(rows), BeforeSide(rows)) && Subsequence(SameLines(rows), AfterSide(rows))
  {
    hide NormalizeNewline, Split, Join;
    var beforeLines := Split(NormalizeNewline(before));
    var afterLines := Split(NormalizeNewline(after));
    rows := DiffLines(beforeLines, afterLines);
    JoinSplit(NormalizeNewline(before));
    JoinSplit(NormalizeNewline(after));
    forall w | Subsequence(w, beforeLines) && Subsequence(w, afterLines)
      ensures |w| <= |SameLines(rows)|
    {
      assert beforeLines[0..] == beforeLines && afterLines[0..] == afterLines;
      LcsIsBound(beforeLines, afterLines, 0, 0, w);
    }
    SameLinesAreCommon(rows);
  }

  method DiffLines(beforeLines: seq<string>, afterLines: seq<string>) returns (rows: seq<Row>)
    ensures Sound(rows)
    ensures BeforeSide(rows) == beforeLines && AfterSide(rows) == afterLines
    ensures |SameLines(rows)| == Lcs(beforeLines, afterLines, 0, 0)
  {
    var dp := FillTable(beforeLines, afterLines);
    assert Sound([]) && BeforeSide([]) == [] && AfterSide([]) == [] && SameLines([]) == [];
    LcsAt(beforeLines, afterLines, |beforeLines|, |afterLines|);
    hide Lcs, Sound, BeforeSide, AfterSide, SameLines;
    rows := [];
    var left: nat, right: nat := 0, 0;
    while left < |beforeLines| || right < |afterLines|
      invariant left <= |beforeLines| && right <= |afterLines|
      invariant forall i: nat | i <= |beforeLines| :: RowDone(dp, beforeLines, afterLines, i)
      invariant Sound(rows) && BeforeSide(rows) == beforeLines[..left] && AfterSide(rows) == afterLines[..right]
      invariant |SameLines(rows)| + Lcs(beforeLines, afterLines, left, right) == Lcs(beforeLines, afterLines, 0, 0)
      decreases |beforeLines| - left + |afterLines| - right
    {
      LcsAt(beforeLines, afterLines, left, right);
      var row;
      if left < |beforeLines| && right < |afterLines| && beforeLines[left] == afterLines[right] {
        row := Same(left + 1, beforeLines[left], afterLines[right]);
        left, right := left + 1, right + 1;
      } else if right < |afterLines| && (left >= |beforeLines| || dp[left, right + 1] >= dp[left + 1, right]) {
        assert left < |beforeLines| ==>
            RowDone(dp, beforeLines, afterLines, left) && RowDone(dp, beforeLines, afterLines, left + 1);
        if left == |beforeLines| { LcsAt(beforeLines, afterLines, left, right + 1); }
        row := Added(afterLines[right]);
        right := right + 1;
      } else {
        assert RowDone(dp, beforeLines, afterLines, left) && RowDone(dp, beforeLines, afterLines, left + 1);
        if right == |afterLines| { LcsAt(beforeLines, afterLines, left + 1, right); }
        row := Removed(left + 1, beforeLines[left]);
        left := left + 1;
      }
      ShowRow(rows, row, beforeLines, afterLines, left, right);
      rows := rows + [row];
    }
  }

  // One more row shows one more line of the texts it has a cell for.
  lemma ShowRow(rows: seq<Row>, row: Row, a: seq<string>, b: seq<string>, left: nat, right: nat)
    requires left <= |a| && right <= |b| && Sound(rows)
    requires var (l, r) := (left - if row.Added? then 0 else 1, right - if row.Removed? then 0 else 1);
             && l >= 0 && r >= 0 && BeforeSide(rows) == a[..l] && AfterSide(rows) == b[..r]
             && (!row.Added? ==> row.before == a[l] && row.number == l + 1)
             && (!row.Removed? ==> row.after == b[r])
             && (row.Same? ==> a[l] == b[r])
    ensures Sound(rows + [row]) && BeforeSide(rows + [row]) == a[..left] && AfterSide(rows + [row]) == b[..right]
    ensures |SameLines(rows + [row])| == |SameLines(rows)| + if row.Same? then 1 else 0
  {
    hide BeforeSide, AfterSide, SameLines, Sound;
    PushRow(rows, row);
    if !row.Added? { TakeNext(a, left - 1); }
    if !row.Removed? { TakeNext(b, right - 1); }
    assert a[..left] + [] == a[..left] && b[..right] + [] == b[..right];
  }
}
