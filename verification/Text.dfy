// Text primitives shared by the Markdown, diff, import and configuration models:
// white space, trimming, line splitting and the blank-run collapse that every
// Markdown transform of server/markdown-document.js ends with.
module Text {

  // The characters matched by JavaScript's `\s`, which `trim` also removes.
  predicate IsSpace(c: char) {
    || '\t' <= c <= '\r'
    || c == ' ' || c == '\U{00A0}' || c == '\U{1680}' || c == '\U{2028}' || c == '\U{2029}'
    || c == '\U{202F}' || c == '\U{205F}' || c == '\U{3000}' || c == '\U{FEFF}'
    || '\U{2000}' <= c <= '\U{200A}'
  }

  // A dot in a JavaScript regular expression matches anything but these.
  predicate IsLineTerminator(c: char) {
    c == '\n' || c == '\r' || c == '\U{2028}' || c == '\U{2029}'
  }

  predicate NoTerminator(s: string) {
    forall i | 0 <= i < |s| :: !IsLineTerminator(s[i])
  }

  function TrimStart(s: string): (r: string)
  {
    if s != "" && IsSpace(s[0]) then TrimStart(s[1..]) else s
  }

  function TrimEnd(s: string): (r: string)
    ensures r <= s
  {
    if s != "" && IsSpace(s[|s| - 1]) then TrimEnd(s[..|s| - 1]) else s
  }

  function Trim(s: string): (r: string)
  {
    TrimEnd(TrimStart(s))
  }

  predicate Trimmed(s: string) {
    s != "" ==> !IsSpace(s[0]) && !IsSpace(s[|s| - 1])
  }

  predicate AllSpace(s: string) {
    forall i | 0 <= i < |s| :: IsSpace(s[i])
  }

  predicate Blank(s: string) {
    Trim(s) == ""
  }

  // toLowerCase, on the ASCII letters.
  function LowerChar(c: char): char {
    if 'A' <= c <= 'Z' then (c as int + 32) as char else c
  }

  function ToLower(s: string): (r: string)
  {
    seq(|s|, i requires 0 <= i < |s| => LowerChar(s[i]))
  }

  predicate StartsWith(s: string, prefix: string) {
    prefix <= s
  }

  // -------------------------------------------------------------- sequences

  ghost predicate NoRepeat(s: seq<string>) {
    forall i, j | 0 <= i < j < |s| :: s[i] != s[j]
  }

  lemma DropDrop<T>(s: seq<T>, i: nat, n: nat)
    requires i + n <= |s|
    ensures s[i..][n..] == s[i + n..] && s[i..][..n] == s[i..i + n]
  {
  }

  lemma Assoc<T>(a: seq<T>, b: seq<T>, c: seq<T>)
    ensures (a + b) + c == a + (b + c)
  {
  }

  lemma TakeNext<T>(s: seq<T>, i: nat)
    requires i < |s|
    ensures s[..i + 1] == s[..i] + [s[i]] && s[..i] + [] == s[..i]
  {
  }

  lemma SliceConcat<T>(a: seq<T>, x: T, b: seq<T>)
    ensures var s := a + [x] + b;
            s[..|a|] == a && s[|a|] == x && s[|a| + 1..] == b
  {
  }

  lemma FourParts<T>(s: seq<T>, i: nat, j: nat)
    requires i < j <= |s|
    ensures s == s[..i] + [s[i]] + s[i + 1..j] + s[j..]
  {
  }

  lemma PartsOfConcat<T>(a: seq<T>, x: T, b: seq<T>, c: seq<T>)
    ensures var s, i, j := a + [x] + b + c, |a|, |a| + 1 + |b|;
            && |s| == j + |c| && s[..i] == a && s[i] == x && s[i + 1..j] == b && s[j..] == c
  {
    var s, j := a + [x] + b + c, |a| + 1 + |b|;
    assert forall k | 0 <= k < |a| :: s[k] == a[k];
    assert forall k | 0 <= k < |b| :: s[|a| + 1 + k] == b[k];
    assert forall k | 0 <= k < |c| :: s[j + k] == c[k];
  }

  // ---------------------------------------------------------------- lines

  // s.split('\n')
  function Split(s: string): (r: seq<string>)
    ensures |r| > 0
  {
    if s == "" then [""]
    else
      var rest := Split(s[1..]);
      if s[0] == '\n' then [""] + rest
      else [[s[0]] + rest[0]] + rest[1..]
  }

  // lines.join('\n')
  function Join(lines: seq<string>): (r: string)
  {
    if |lines| == 0 then ""
    else if |lines| == 1 then lines[0]
    else lines[0] + "\n" + Join(lines[1..])
  }

  function JoinWith(parts: seq<string>, separator: string): string {
    if parts == [] then "" else if |parts| == 1 then parts[0]
    else parts[0] + separator + JoinWith(parts[1..], separator)
  }

  ghost predicate SingleLines(lines: seq<string>) {
    forall l | l in lines :: '\n' !in l
  }

  lemma {:induction false} SplitIsSingleLines(s: string)
    ensures SingleLines(Split(s))
  {
    if s != "" { SplitIsSingleLines(s[1..]); }
  }

  ghost predicate Plain(s: string) {
    '\n' !in s && '\r' !in s
  }

  ghost predicate PlainLines(lines: seq<string>) {
    forall l | l in lines :: Plain(l)
  }

  lemma PlainConcat(a: seq<string>, b: seq<string>)
    requires PlainLines(a) && PlainLines(b)
    ensures PlainLines(a + b)
  {
  }

  lemma {:induction false} SplitIsPlain(s: string)
    requires '\r' !in s
    ensures PlainLines(Split(s))
  {
    if s != "" {
      SplitIsPlain(s[1..]);
      var rest := Split(s[1..]);
      assert Plain(rest[0]) && PlainLines(rest[1..]);
      assert s[0] != '\n' ==> Plain([s[0]] + rest[0]);
    }
  }

  lemma {:induction false} JoinHasNoReturn(lines: seq<string>)
    requires PlainLines(lines)
    ensures '\r' !in Join(lines)
  {
    if lines != [] { assert Plain(lines[0]); }
    if |lines| > 1 { JoinHasNoReturn(lines[1..]); }
  }

  lemma {:induction false} JoinConcat(a: seq<string>, b: seq<string>)
    requires a != [] && b != []
    ensures Join(a + b) == Join(a) + "\n" + Join(b)
  {
    assert (a + b)[1..] == a[1..] + b;
    if |a| > 1 { JoinConcat(a[1..], b); }
    assert |a| == 1 ==> a[1..] + b == b;
  }

  lemma {:induction false} SplitPrepend(l: string, s: string)
    requires '\n' !in l
    ensures Split(l + s) == [l + Split(s)[0]] + Split(s)[1..]
  {
    if l == "" {
      assert l + s == s && l + Split(s)[0] == Split(s)[0];
    } else {
      SplitPrepend(l[1..], s);
      assert (l + s)[1..] == l[1..] + s;
      assert [l[0]] + (l[1..] + Split(s)[0]) == l + Split(s)[0];
    }
  }

  // Splitting inverts joining on lines that hold no newline.
  lemma {:induction false} SplitJoin(lines: seq<string>)
    requires |lines| > 0 && SingleLines(lines)
    ensures Split(Join(lines)) == lines
  {
    var l := lines[0];
    if |lines| == 1 {
      SplitPrepend(l, "");
      assert l + "" == l;
    } else {
      SplitJoin(lines[1..]);
      var tail := "\n" + Join(lines[1..]);
      assert tail[1..] == Join(lines[1..]);
      SplitPrepend(l, tail);
      assert Join(lines) == l + tail;
      assert l + "" == l;
    }
  }

  // Joining inverts splitting on every text.
  lemma {:induction false} JoinSplit(s: string)
    ensures Join(Split(s)) == s
  {
    if s != "" {
      JoinSplit(s[1..]);
      var rest := Split(s[1..]);
      if s[0] == '\n' {
        assert ([""] + rest)[1..] == rest;
      } else {
        assert s == [s[0]] + s[1..];
        assert ([[s[0]] + rest[0]] + rest[1..])[1..] == rest[1..];
      }
    }
  }

  lemma SplitCons(c: char, t: string)
    ensures Split([c] + t) == if c == '\n' then [""] + Split(t) else [[c] + Split(t)[0]] + Split(t)[1..]
  {
    assert ([c] + t)[1..] == t;
  }

  lemma SplitEmpty()
    ensures Split("") == [""]
  {
  }

  lemma SplitOne(c: char)
    ensures Split([c]) == if c == '\n' then ["", ""] else [[c]]
  {
    assert [c][1..] == "" && [c] + "" == [c];
  }

  lemma AppendToLast<T>(x: seq<T>, a: seq<seq<T>>, c: T)
    requires a != []
    ensures var b := a[..|a| - 1] + [a[|a| - 1] + [c]];
            var h := [x + a[0]] + a[1..];
            [x + b[0]] + b[1..] == h[..|h| - 1] + [h[|h| - 1] + [c]]
  {
    var b := a[..|a| - 1] + [a[|a| - 1] + [c]];
    if |a| == 1 {
      assert x + (a[0] + [c]) == x + a[0] + [c];
    } else {
      assert b[1..] == a[1..|a| - 1] + [a[|a| - 1] + [c]];
    }
  }

  lemma {:induction false} SplitAppend(s: string, c: char)
    ensures c == '\n' ==> Split(s + [c]) == Split(s) + [""]
    ensures c != '\n' ==>
              var b := Split(s);
              Split(s + [c]) == b[..|b| - 1] + [b[|b| - 1] + [c]]
  {
    hide Split;
    if s == "" {
      SplitEmpty();
      SplitOne(c);
      assert s + [c] == [c] && "" + [c] == [c];
    } else {
      var t := s[1..];
      SplitAppend(t, c);
      assert s == [s[0]] + t && s + [c] == [s[0]] + (t + [c]);
      SplitCons(s[0], t);
      SplitCons(s[0], t + [c]);
      var rest := Split(t);
      if s[0] != '\n' {
        if c != '\n' { AppendToLast([s[0]], rest, c); } else { assert (rest + [""])[1..] == rest[1..] + [""]; }
      }
    }
  }

  // ------------------------------------------------------------ new lines

  // replace(/\r\n?/g, '\n'), which is also replace(/\r\n/g, '\n').replace(/\r/g, '\n').
  function NormalizeNewline(s: string): (r: string)
    ensures '\r' !in r
  {
    if s == "" then ""
    else if s[0] == '\r' then
      "\n" + NormalizeNewline(if |s| > 1 && s[1] == '\n' then s[2..] else s[1..])
    else [s[0]] + NormalizeNewline(s[1..])
  }

  lemma {:induction false} NormalizeNewlineFixed(s: string)
    requires '\r' !in s
    ensures NormalizeNewline(s) == s
  {
    if s != "" {
      NormalizeNewlineFixed(s[1..]);
    }
  }

  // replace(/\n{3,}/g, '\n\n'), given the number of newlines just emitted.
  function CollapseRuns(s: string, run: nat): (r: string)
    ensures forall c | c in r :: c in s
  {
    if s == "" then ""
    else if s[0] == '\n' then
      if run >= 2 then CollapseRuns(s[1..], run)
      else "\n" + CollapseRuns(s[1..], run + 1)
    else [s[0]] + CollapseRuns(s[1..], 0)
  }

  function EnsureTrailingNewline(s: string): (r: string)
  {
    TrimEnd(CollapseRuns(s, 0)) + "\n"
  }

  // No run of newlines reaches three, counting `run` newlines already seen.
  predicate NoTripleRun(s: string, run: nat) {
    s == "" ||
    if s[0] == '\n' then run < 2 && NoTripleRun(s[1..], run + 1)
    else NoTripleRun(s[1..], 0)
  }

  lemma {:induction false} CollapseHasNoTripleRun(s: string, run: nat)
    requires run <= 2
    ensures NoTripleRun(CollapseRuns(s, run), run)
  {
    if s != "" {
      if s[0] == '\n' {
        CollapseHasNoTripleRun(s[1..], if run >= 2 then run else run + 1);
      } else {
        CollapseHasNoTripleRun(s[1..], 0);
      }
    }
  }

  lemma {:induction false} CollapseFixed(s: string, run: nat)
    requires NoTripleRun(s, run)
    ensures CollapseRuns(s, run) == s
  {
    if s != "" {
      CollapseFixed(s[1..], if s[0] == '\n' then run + 1 else 0);
    }
  }

  lemma {:induction false} NoTripleRunTrimmed(s: string, t: string, run: nat)
    requires NoTripleRun(t, run) && s <= t && run <= 2 && (run == 2 ==> s != "")
    requires s != "" ==> !IsSpace(s[|s| - 1])
    ensures NoTripleRun(s + "\n", run)
  {
    if s != "" {
      assert (s + "\n")[1..] == s[1..] + "\n";
      NoTripleRunTrimmed(s[1..], t[1..], if s[0] == '\n' then run + 1 else 0);
    }
  }

  lemma {:induction false} TrimEndLast(s: string)
    ensures TrimEnd(s) != "" ==> !IsSpace(TrimEnd(s)[|TrimEnd(s)| - 1])
    ensures !IsSpace('x') && (s != "" && !IsSpace(s[|s| - 1]) ==> TrimEnd(s) == s)
  {
    if s != "" && IsSpace(s[|s| - 1]) { TrimEndLast(s[..|s| - 1]); }
  }

  // The normalizer that ends every transform is a projection.
  lemma EnsureTrailingNewlineIdempotent(s: string)
    ensures EnsureTrailingNewline(EnsureTrailingNewline(s)) == EnsureTrailingNewline(s)
  {
    var c := CollapseRuns(s, 0);
    var t := TrimEnd(c);
    CollapseHasNoTripleRun(s, 0);
    TrimEndLast(c);
    NoTripleRunTrimmed(t, c, 0);
    CollapseFixed(t + "\n", 0);
    assert (t + "\n")[..|t|] == t;
    TrimEndLast(t);
  }

  // ------------------------------------------------------------- trimming

  lemma {:induction false} TrimFixed(s: string)
    requires Trimmed(s)
    ensures Trim(s) == s && TrimStart(s) == s && TrimEnd(s) == s
  {
  }

  lemma {:induction false} TrimStartAppend(s: string, c: char)
    requires IsSpace(c)
    ensures TrimStart(s + [c]) == (if TrimStart(s) == "" then "" else TrimStart(s) + [c])
  {
    if s == "" {
      assert s + [c] == [c] && [c][1..] == "";
    } else if IsSpace(s[0]) {
      assert (s + [c])[1..] == s[1..] + [c];
      TrimStartAppend(s[1..], c);
    }
  }

  // Trailing white space does not change what a line trims to.
  lemma {:induction false} TrimAppend(s: string, c: char)
    requires IsSpace(c)
    ensures Trim(s + [c]) == Trim(s)
  {
    TrimStartAppend(s, c);
    var t := TrimStart(s);
    assert (t + [c])[..|t|] == t;
  }

  lemma {:induction false} TrimOfTrimEnd(s: string)
    ensures Trim(TrimEnd(s)) == Trim(s)
  {
    if s != "" && IsSpace(s[|s| - 1]) {
      TrimOfTrimEnd(s[..|s| - 1]);
      TrimAppend(s[..|s| - 1], s[|s| - 1]);
      assert s[..|s| - 1] + [s[|s| - 1]] == s;
    }
  }

  lemma {:induction false} TrimStartSuffix(s: string)
    ensures |TrimStart(s)| <= |s| && TrimStart(s) == s[|s| - |TrimStart(s)|..]
    ensures TrimStart(s) != "" ==> !IsSpace(TrimStart(s)[0])
  {
    if s != "" && IsSpace(s[0]) { TrimStartSuffix(s[1..]); }
  }

  lemma {:induction false} TrimEndKeepsFirst(s: string)
    requires s != "" && !IsSpace(s[0])
    ensures TrimEnd(s) != "" && TrimEnd(s)[0] == s[0]
  {
    if IsSpace(s[|s| - 1]) { TrimEndKeepsFirst(s[..|s| - 1]); }
  }

  lemma {:induction false} TrimEndOfTail(a: string, w: string)
    requires a != "" && !IsSpace(a[|a| - 1])
    ensures TrimEnd(a + w) == a + TrimEnd(w)
  {
    if w == "" {
      assert a + w == a;
    } else {
      assert (a + w)[..|a + w| - 1] == a + w[..|w| - 1];
      if IsSpace(w[|w| - 1]) { TrimEndOfTail(a, w[..|w| - 1]); }
    }
  }

  lemma TrimIsTrimmed(s: string)
    ensures Trimmed(Trim(s)) && Trim(Trim(s)) == Trim(s)
    ensures forall c | c in Trim(s) :: c in s
  {
    TrimStartSuffix(s);
    TrimEndLast(TrimStart(s));
    TrimFixed(Trim(s));
  }

  lemma TrimShortens(s: string)
    ensures |Trim(s)| <= |s|
  {
    TrimStartSuffix(s);
  }

  // ------------------------------------------- a text as non-blank lines

  function NonBlank(lines: seq<string>): (r: seq<string>)
  {
    if lines == [] then []
    else (if Blank(lines[0]) then [] else [lines[0]]) + NonBlank(lines[1..])
  }

  lemma {:induction false} NonBlankSound(lines: seq<string>)
    ensures forall l :: l in NonBlank(lines) <==> l in lines && !Blank(l)
  {
    if lines != [] { NonBlankSound(lines[1..]); }
  }

  lemma NonBlankOfNone()
    ensures NonBlank([]) == []
  {
  }

  lemma NonBlankSlice(lines: seq<string>, i: nat, j: nat)
    requires i <= j <= |NonBlank(lines)|
    ensures NonBlank(NonBlank(lines)[i..j]) == NonBlank(lines)[i..j]
  {
    NonBlankSound(lines);
    var w := NonBlank(lines)[i..j];
    assert forall l | l in w :: l in NonBlank(lines);
    NonBlankFixed(w);
  }

  lemma {:induction false} NonBlankConcat(a: seq<string>, b: seq<string>)
    ensures NonBlank(a + b) == NonBlank(a) + NonBlank(b)
  {
    hide Blank;
    if a == [] {
      assert a + b == b;
    } else {
      assert (a + b)[1..] == a[1..] + b;
      NonBlankConcat(a[1..], b);
    }
  }

  lemma {:induction false} NonBlankFixed(lines: seq<string>)
    requires forall l | l in lines :: !Blank(l)
    ensures NonBlank(lines) == lines
  {
    if lines != [] { NonBlankFixed(lines[1..]); }
  }

  // The end-of-document trim also strips the last line that holds text.
  function StripLast(lines: seq<string>): (r: seq<string>)
    ensures |r| == |lines|
  {
    if lines == [] then []
    else
      lines[..|lines| - 1] + [TrimEnd(lines[|lines| - 1])]
  }

  lemma {:induction false} CollapseKeepsNonBlank(s: string, run: nat)
    ensures NonBlank(Split(CollapseRuns(s, run))) == NonBlank(Split(s))
    ensures run < 2 ==> Split(CollapseRuns(s, run))[0] == Split(s)[0]
    ensures run < 2 ==> NonBlank(Split(CollapseRuns(s, run))[1..]) == NonBlank(Split(s)[1..])
  {
    if s != "" {
      var rest := Split(s[1..]);
      if s[0] == '\n' {
        var run' := if run >= 2 then run else run + 1;
        CollapseKeepsNonBlank(s[1..], run');
        assert ([""] + rest)[1..] == rest;
        if run < 2 {
          var out := "\n" + CollapseRuns(s[1..], run');
          assert out[1..] == CollapseRuns(s[1..], run');
          assert ([""] + Split(out[1..]))[1..] == Split(out[1..]);
        }
      } else {
        CollapseKeepsNonBlank(s[1..], 0);
        var tail := CollapseRuns(s[1..], 0);
        var out := [s[0]] + tail;
        assert out[1..] == tail;
        assert Split(out) == [[s[0]] + rest[0]] + Split(tail)[1..];
        assert Split(out)[1..] == Split(tail)[1..];
        assert Split(s)[1..] == rest[1..];
      }
    }
  }

  lemma NonBlankSnoc(a: seq<string>, l: string)
    ensures NonBlank(a + [l]) == NonBlank(a) + (if Blank(l) then [] else [l])
  {
    NonBlankConcat(a, [l]);
    assert [l][1..] == [];
  }

  lemma StripLastSnoc(a: seq<string>, l: string)
    ensures StripLast(a + [l]) == a + [TrimEnd(l)]
  {
    assert (a + [l])[..|a|] == a;
  }

  lemma {:induction false} TrimEndTwice(s: string)
    ensures TrimEnd(TrimEnd(s)) == TrimEnd(s)
  {
    TrimEndLast(s);
    TrimEndLast(TrimEnd(s));
  }

  lemma StripLastTwice(lines: seq<string>)
    ensures StripLast(StripLast(lines)) == StripLast(lines)
  {
    if lines != [] {
      TrimEndTwice(lines[|lines| - 1]);
      assert StripLast(lines)[..|lines| - 1] == lines[..|lines| - 1];
    }
  }

  lemma LastLineSpace(a: seq<string>, l: string, c: char)
    requires IsSpace(c)
    ensures StripLast(NonBlank(a + [l + [c]])) == StripLast(NonBlank(a + [l]))
  {
    assert (l + [c])[..|l|] == l;
    assert TrimEnd(l + [c]) == TrimEnd(l);
    TrimAppend(l, c);
    hide NonBlank, StripLast, Trim, TrimEnd, IsSpace;
    NonBlankSnoc(a, l);
    NonBlankSnoc(a, l + [c]);
    StripLastSnoc(NonBlank(a), l);
    StripLastSnoc(NonBlank(a), l + [c]);
  }

  lemma TrailingNewlineStep(t: string)
    ensures NonBlank(Split(t + "\n")) == NonBlank(Split(t))
  {
    SplitAppend(t, '\n');
    NonBlankSnoc(Split(t), "");
  }

  lemma TrailingSpaceStep(t: string, c: char)
    requires IsSpace(c) && c != '\n'
    ensures StripLast(NonBlank(Split(t + [c]))) == StripLast(NonBlank(Split(t)))
  {
    hide Split, NonBlank, StripLast, IsSpace;
    SplitAppend(t, c);
    var a := Split(t);
    LastLineSpace(a[..|a| - 1], a[|a| - 1], c);
    assert a == a[..|a| - 1] + [a[|a| - 1]];
  }

  lemma TrailingSpaceStop(t: string, c: char)
    requires !IsSpace(c)
    ensures StripLast(NonBlank(Split(t + [c]))) == NonBlank(Split(t + [c]))
  {
    SplitAppend(t, c);
    var a := Split(t);
    TrimEndLine(a[..|a| - 1], a[|a| - 1] + [c]);
  }

  lemma {:induction false} TrimEndKeepsNonBlank(s: string)
    ensures NonBlank(Split(TrimEnd(s))) == StripLast(NonBlank(Split(s)))
  {
    if s != "" {
      var c, t := s[|s| - 1], s[..|s| - 1];
      assert s == t + [c];
      if IsSpace(c) {
        TrimEndKeepsNonBlank(t);
        if c == '\n' { TrailingNewlineStep(t); } else { TrailingSpaceStep(t, c); }
      } else {
        TrailingSpaceStop(t, c);
      }
    }
  }

  lemma TrimEndLine(a: seq<string>, l: string)
    requires l != "" && !IsSpace(l[|l| - 1])
    ensures StripLast(NonBlank(a + [l])) == NonBlank(a + [l])
  {
    NotBlankEnd(l);
    NonBlankSnoc(a, l);
    StripLastSnoc(NonBlank(a), l);
  }

  lemma NotBlankEnd(s: string)
    requires s != "" && !IsSpace(s[|s| - 1])
    ensures !Blank(s) && TrimEnd(s) == s
  {
    TrimStartSuffix(s);
    if TrimStart(s) == "" { TrimStartLast(s); }
  }

  lemma {:induction false} TrimStartLast(s: string)
    requires TrimStart(s) == ""
    ensures s != "" ==> IsSpace(s[|s| - 1])
  {
    if s != "" { TrimStartLast(s[1..]); }
  }

  lemma SplitSnocNewline(s: string)
    ensures Split(s + "\n") == Split(s) + [""]
  {
    SplitAppend(s, '\n');
  }

  // The normalizer changes no line that holds text, except that it strips the
  // white space after the last one.
  lemma NormalizerKeepsNonBlank(s: string)
    ensures NonBlank(Split(EnsureTrailingNewline(s))) == StripLast(NonBlank(Split(s)))
  {
    CollapseKeepsNonBlank(s, 0);
    var c := CollapseRuns(s, 0);
    TrimEndKeepsNonBlank(c);
    SplitSnocNewline(TrimEnd(c));
    NonBlankConcat(Split(TrimEnd(c)), [""]);
  }

  lemma HeadOut<T>(a: seq<T>, b: seq<T>)
    requires a != []
    ensures a + b == [a[0]] + (a[1..] + b)
  {
  }

  lemma ConcatHeadTail<T>(x: seq<T>, a: seq<seq<T>>, b: seq<seq<T>>)
    requires a != []
    ensures [x + (a + b)[0]] + (a + b)[1..] == ([x + a[0]] + a[1..]) + b
  {
    assert (a + b)[1..] == a[1..] + b;
  }

  lemma {:induction false} SplitConcat(a: string, b: string)
    ensures Split(a + "\n" + b) == Split(a) + Split(b)
  {
    hide Split;
    if a == "" {
      SplitCons('\n', b);
      SplitEmpty();
      assert a + "\n" + b == ['\n'] + b;
    } else {
      SplitConcat(a[1..], b);
      var ra, rb := Split(a[1..]), Split(b);
      SplitCons(a[0], a[1..]);
      SplitCons(a[0], a[1..] + "\n" + b);
      HeadOut(a, "\n" + b);
      assert a == [a[0]] + a[1..] && a + "\n" + b == a + ("\n" + b) && a[1..] + "\n" + b == a[1..] + ("\n" + b);
      if a[0] != '\n' { ConcatHeadTail([a[0]], ra, rb); }
    }
  }
}
