// What every run of submissions, crashes, file edits and manifest losses keeps
// of a document's operation log, and what can be rebuilt from it.
module MarkdownRecovery {
  import opened Text
  import opened Wrappers
  import opened MarkdownDocument
  import opened MarkdownOplog
  import opened MarkdownOperations

  // ---------------------------------------------------------- the log's shape

  ghost predicate Has(files: map<nat, seq<Record>>, k: nat) {
    forall i: nat | 1 <= i <= k :: i in files
  }

  ghost predicate Own(lines: seq<Record>, index: nat) {
    lines != [] && forall r | r in lines :: r.segmentIndex == index
  }

  // Segment files 1 to n, each with lines of its own.
  ghost predicate Numbered(files: map<nat, seq<Record>>, n: nat) {
    && n > 0 && Has(files, n)
    && forall i | i in files :: 1 <= i <= n && Own(files[i], i)
  }

  // The lines of segments 1 to n.
  ghost function Lines(files: map<nat, seq<Record>>, n: nat): seq<Record>
    requires Has(files, n)
    decreases n
  {
    if n == 0 then [] else Lines(files, n - 1) + files[n]
  }

  // Records numbered from 1, starting with a normalized snapshot, each hashing
  // the text that replay reaches and following on from its predecessor.
  ghost predicate Chained(log: seq<Record>) {
    log != [] &&
    var n := |log| - 1;
    var (init, r) := (log[..n], log[n]);
    && r.sequence == r.revision == |log|
    && Replay(log).Some? && r.afterHash == ContentHash(Replay(log).value.content)
    && if n == 0 then r.operation.InitialSnapshot? && r.beforeHash == ContentHash("")
       else Chained(init) && r.beforeHash == init[n - 1].afterHash
  }

  ghost predicate Within(options: Options, lines: seq<Record>) {
    |lines| <= MaxOps(options) && (FileBytes(options, lines) <= MaxBytes(options) || |lines| == 1)
  }

  function SegmentOf(options: Options, lines: seq<Record>, index: nat, isLast: bool): Segment
    requires lines != []
  {
    Segment(index, lines[0].sequence, lines[|lines| - 1].sequence, |lines|, FileBytes(options, lines), !isLast)
  }

  ghost function SegmentsOf(options: Options, files: map<nat, seq<Record>>, k: nat, n: nat): seq<Segment>
    requires Has(files, k) && forall i | i in files :: files[i] != []
    decreases k
  {
    if k == 0 then []
    else
      SegmentsOf(options, files, k - 1, n) + [SegmentOf(options, files[k], k, k == n)]
  }

  // The manifest that says what the segment files hold.
  ghost function ManifestOf(options: Options, files: map<nat, seq<Record>>, n: nat): Manifest
    requires Numbered(files, n) && Lines(files, n) != []
  {
    var log := Lines(files, n);
    Manifest(|log|, log[|log| - 1].afterHash, n, MaxBytes(options), MaxOps(options), SegmentsOf(options, files, n, n))
  }

  ghost predicate LogInv(options: Options, d: Disk, n: nat) {
    && Numbered(d.files, n)
    && Chained(Lines(d.files, n))
    && Lines(d.files, n)[0].idempotencyKey == InitialKey(options)
    && AllWithin(options, d.files)
    && (d.manifest.Some? ==> d.manifest.value == ManifestOf(options, d.files, n))
  }

  ghost predicate Fresh(d: Disk) {
    d.files == map[] && d.manifest == None
  }

  ghost predicate Inv(options: Options, d: Disk) {
    Fresh(d) || exists n :: LogInv(options, d, n)
  }

  // ---------------------------------------- reading back what was written

  function Range(n: nat): seq<nat> {
    if n == 0 then [] else Range(n - 1) + [n]
  }

  lemma {:induction false} RangeHolds(n: nat)
    ensures |Range(n)| == n && forall i :: i in Range(n) <==> 1 <= i <= n
  {
    if n > 0 { RangeHolds(n - 1); }
  }

  lemma {:induction false} ListingOfRange(names: set<nat>, n: nat)
    requires forall i :: i in names <==> 1 <= i <= n
    ensures ListSegmentFiles(names) == Range(n)
    ensures n > 0 ==> names != {} && Highest(names) == n
  {
    if n > 0 {
      assert n in names;
      ListingOfRange(names - {n}, n - 1);
    } else {
      assert names == {};
    }
  }

  lemma {:induction false} IndexedOwn(lines: seq<Record>, index: nat)
    requires index > 0 && (lines != [] ==> Own(lines, index))
    ensures Indexed(lines, index) == lines
  {
    if lines != [] {
      assert lines == lines[..|lines| - 1] + [lines[|lines| - 1]];
      assert lines[|lines| - 1] in lines;
      IndexedOwn(lines[..|lines| - 1], index);
    }
  }

  lemma ReadNext(files: map<nat, seq<Record>>, listing: seq<nat>, index: nat)
    requires (forall i | i in listing :: i in files) && index in files && Own(files[index], index) && index > 0
    ensures forall i | i in listing + [index] :: i in files
    ensures ReadFiles(files, listing + [index]) == ReadFiles(files, listing) + files[index]
  {
    IndexedOwn(files[index], index);
    hide Indexed, Own;
    assert (listing + [index])[..|listing|] == listing;
  }

  lemma {:induction false} ReadRange(files: map<nat, seq<Record>>, k: nat, n: nat)
    requires Numbered(files, n) && k <= n
    ensures forall i | i in Range(k) :: i in files
    ensures ReadFiles(files, Range(k)) == Lines(files, k)
    decreases k
  {
    if k > 0 {
      ReadRange(files, k - 1, n);
      ReadNext(files, Range(k - 1), k);
    }
  }

  lemma {:induction false} ChainedSorted(log: seq<Record>)
    requires Chained(log)
    ensures SortBySequence(log) == log
  {
    hide Replay;
    var n := |log| - 1;
    var init := log[..n];
    assert log == init + [log[n]];
    if n > 0 {
      ChainedSorted(init);
      assert init[n - 1].sequence == n;
    }
  }

  // The records read are the lines in file order.
  lemma ReadsLines(files: map<nat, seq<Record>>, n: nat)
    requires Numbered(files, n) && Chained(Lines(files, n))
    ensures ReadRecords(files) == Lines(files, n)
  {
    hide Chained;
    ListingOfRange(files.Keys, n);
    ReadRange(files, n, n);
    ListingSound(files.Keys);
    ChainedSorted(Lines(files, n));
  }

  lemma {:induction false} RecordsOfConcat(a: seq<Record>, b: seq<Record>, index: nat)
    ensures RecordsOfSegment(a + b, index) == RecordsOfSegment(a, index) + RecordsOfSegment(b, index)
  {
    if b == [] {
      assert a + b == a;
    } else {
      assert (a + b)[..|a + b| - 1] == a + b[..|b| - 1];
      RecordsOfConcat(a, b[..|b| - 1], index);
    }
  }

  lemma {:induction false} RecordsOfFile(lines: seq<Record>, own: nat, index: nat)
    requires lines != [] ==> Own(lines, own)
    ensures RecordsOfSegment(lines, index) == if own == index then lines else []
  {
    if lines != [] {
      assert lines[|lines| - 1] in lines;
      RecordsOfFile(lines[..|lines| - 1], own, index);
    }
  }

  lemma RecordsOfNext(before: seq<Record>, lines: seq<Record>, own: nat, index: nat)
    requires Own(lines, own)
    ensures own != index ==> RecordsOfSegment(before + lines, index) == RecordsOfSegment(before, index)
    ensures own == index && RecordsOfSegment(before, index) == [] ==> RecordsOfSegment(before + lines, index) == lines
  {
    hide RecordsOfSegment, Own;
    RecordsOfConcat(before, lines, index);
    RecordsOfFile(lines, own, index);
  }

  lemma NoRecords(index: nat)
    ensures RecordsOfSegment([], index) == []
  {
  }

  lemma {:induction false} RecordsOfLines(files: map<nat, seq<Record>>, k: nat, n: nat, index: nat)
    requires Numbered(files, n) && k <= n && index in files
    ensures RecordsOfSegment(Lines(files, k), index) == if index <= k then files[index] else []
    decreases k
  {
    hide Own, RecordsOfSegment;
    if k == 0 {
      NoRecords(index);
    } else {
      RecordsOfLines(files, k - 1, n, index);
      RecordsOfNext(Lines(files, k - 1), files[k], k, index);
    }
  }

  lemma NoneEmpty(files: map<nat, seq<Record>>, n: nat)
    requires Numbered(files, n)
    ensures forall i | i in files :: files[i] != []
  {
    assert forall i | i in files :: Own(files[i], i);
  }

  lemma RebuiltSegmentIs(options: Options, files: map<nat, seq<Record>>, k: nat, n: nat)
    requires Numbered(files, n) && 0 < k <= n
    ensures files[k] != []
    ensures RebuiltSegment(options, files, Lines(files, n), k, k == n) == SegmentOf(options, files[k], k, k == n)
  {
    NoneEmpty(files, n);
    hide Lines, RecordsOfSegment, FileBytes, Own;
    RecordsOfLines(files, n, n, k);
  }

  lemma {:induction false} RebuiltSegmentsOf(options: Options, files: map<nat, seq<Record>>, k: nat, n: nat)
    requires Numbered(files, n) && k <= n
    ensures forall i | i in Range(k) :: i in files
    ensures RebuiltSegments(options, files, Lines(files, n), Range(k), n) == SegmentsOf(options, files, k, n)
    decreases k
  {
    NoneEmpty(files, n);
    hide Lines, Chained, Own, RebuiltSegment, SegmentOf;
    RangeHolds(k);
    if k > 0 {
      RangeHolds(k - 1);
      RebuiltSegmentsOf(options, files, k - 1, n);
      RebuiltSegmentIs(options, files, k, n);
      assert Range(k)[..k - 1] == Range(k - 1);
    }
  }

  lemma ChainedReplay(log: seq<Record>)
    requires Chained(log)
    ensures Replay(log).Some? && Replay(log).value.revision == |log|
    ensures log[|log| - 1].afterHash == ContentHash(Replay(log).value.content)
  {
    hide ApplyMarkdownOperation;
  }

  // The manifest rebuilt from the segment files is the one they were written with.
  lemma RebuildsManifest(options: Options, files: map<nat, seq<Record>>, n: nat)
    requires Numbered(files, n) && Chained(Lines(files, n))
    ensures RebuiltManifest(options, files) == Some(ManifestOf(options, files, n))
  {
    hide Chained, Replay, ReadRecords;
    assert Lines(files, n) != [] by { ChainedReplay(Lines(files, n)); ChainedNotEmpty(Lines(files, n)); }
    ReadsLines(files, n);
    ChainedReplay(Lines(files, n));
    ListingOfRange(files.Keys, n);
    RebuiltSegmentsOf(options, files, n, n);
  }

  lemma ChainedNotEmpty(log: seq<Record>)
    requires Chained(log)
    ensures log != []
  {
  }

  // Losing the manifest is harmless: the next call rebuilds exactly the lost
  // one, so the disk is as if it had never been lost.
  lemma ManifestLossIsHarmless(options: Options, d: Disk, n: nat, content: string, crash: CrashPoint)
    requires LogInv(options, d, n) && d.manifest.Some?
    ensures EnsureLog(options, d.(manifest := None), content, crash) == Done(d, d.manifest.value)
  {
    hide Chained, ReadRecords, RebuiltManifest;
    ChainedNotEmpty(Lines(d.files, n));
    RebuildsManifest(options, d.files, n);
    ReadsLines(d.files, n);
    assert d.(manifest := None).(manifest := d.manifest) == d;
  }

  // ------------------------------------------------------------ appending

  lemma {:induction false} SegmentsShape(options: Options, files: map<nat, seq<Record>>, k: nat, n: nat)
    requires Has(files, k) && forall i | i in files :: files[i] != []
    ensures |SegmentsOf(options, files, k, n)| == k
    ensures forall j: nat | j < k ::
              j + 1 in files && SegmentsOf(options, files, k, n)[j] ==
                  SegmentOf(options, files[j + 1], j + 1, j + 1 == n)
    decreases k
  {
    hide SegmentOf;
    if k > 0 { SegmentsShape(options, files, k - 1, n); }
  }

  lemma {:induction false} FindSegmentAt(segments: seq<Segment>, at: nat, index: nat)
    requires at < |segments| && segments[at].index == index
    requires forall j | 0 <= j < at :: segments[j].index != index
    ensures FindSegment(segments, index) == at
    decreases at
  {
    if at > 0 { FindSegmentAt(segments[1..], at - 1, index); }
  }

  lemma {:induction false} SameLines(files: map<nat, seq<Record>>, other: map<nat, seq<Record>>, k: nat)
    requires Has(files, k) && Has(other, k) && forall i: nat | 1 <= i <= k :: files[i] == other[i]
    ensures Lines(files, k) == Lines(other, k)
    decreases k
  {
    if k > 0 { SameLines(files, other, k - 1); }
  }

  lemma {:induction false} SameSegments(options: Options, files: map<nat, seq<Record>>, other: map<nat, seq<Record>>,
                                        k: nat, n: nat, m: nat)
    requires Has(files, k) && Has(other, k) && forall i: nat | 1 <= i <= k :: files[i] == other[i]
    requires (forall i | i in files :: files[i] != []) && (forall i | i in other :: other[i] != [])
    requires k < n && k < m
    ensures SegmentsOf(options, files, k, n) == SegmentsOf(options, other, k, m)
    decreases k
  {
    if k > 0 { SameSegments(options, files, other, k - 1, n, m); }
  }

  // The log with one more record, whose operation takes the replayed text to `after`.
  ghost predicate Follows(log: seq<Record>, draft: Record, after: string) {
    && Chained(log) && Replay(log).Some?
    && ApplyMarkdownOperation(Replay(log).value.content, draft.operation) == Some(after)
    && draft.beforeHash == log[|log| - 1].afterHash
    && draft.afterHash == ContentHash(after)
  }

  lemma ChainExtends(log: seq<Record>, draft: Record, after: string, r: Record)
    requires Follows(log, draft, after)
    requires r == draft.(sequence := |log| + 1, revision := |log| + 1, segmentIndex := r.segmentIndex)
    ensures Chained(log + [r]) && Replay(log + [r]) == Some(Replayed(after, |log| + 1))
  {
    hide ApplyMarkdownOperation;
    assert (log + [r])[..|log|] == log;
  }

  lemma FileBytesSnoc(options: Options, lines: seq<Record>, r: Record)
    ensures FileBytes(options, lines + [r]) == FileBytes(options, lines) + LineBytes(options, r)
    ensures lines != [] ==> FileBytes(options, lines) > 0
  {
    assert (lines + [r])[..|lines|] == lines;
  }

  lemma PlanParts(options: Options, files: map<nat, seq<Record>>, n: nat)
    requires Numbered(files, n) && Lines(files, n) != []
    ensures var m := ManifestOf(options, files, n);
            && |m.segments| == n && FindSegment(m.segments, n) == n - 1
            && m.segments[n - 1] == SegmentOf(options, files[n], n, true)
            && m.segments == SegmentsOf(options, files, n - 1, n) + [m.segments[n - 1]]
  {
    assert forall i | i in files :: files[i] != [];
    hide Lines, Own, FileBytes;
    SegmentsShape(options, files, n, n);
    FindSegmentAt(SegmentsOf(options, files, n, n), n - 1, n);
  }

  lemma CountedLast(options: Options, lines: seq<Record>, index: nat, r: Record)
    requires lines != [] && lines[0].sequence > 0
    ensures Counted(options, SegmentOf(options, lines, index, true), r) == SegmentOf(options, lines + [r], index, true)
  {
    FileBytesSnoc(options, lines, r);
  }

  lemma NewSegmentCounted(options: Options, index: nat, r: Record)
    ensures Counted(options, NewSegment(index, r.sequence), r) == SegmentOf(options, [r], index, true)
  {
    FileBytesSnoc(options, [], r);
    assert [] + [r] == [r];
  }

  lemma {:induction false} FirstSequences(files: map<nat, seq<Record>>, k: nat, log: seq<Record>)
    requires Has(files, k) && (forall i | i in files :: files[i] != []) && Lines(files, k) <= log
    requires forall r | r in log :: r.sequence > 0
    ensures forall i: nat | 1 <= i <= k :: files[i][0].sequence > 0
    decreases k
  {
    if k > 0 {
      var before := Lines(files, k - 1);
      assert log[|before|] == files[k][0];
      FirstSequences(files, k - 1, log);
    }
  }

  lemma {:induction false} SequencesPositive(log: seq<Record>)
    requires Chained(log)
    ensures forall r | r in log :: r.sequence > 0
  {
    hide Replay;
    var n := |log| - 1;
    assert log == log[..n] + [log[n]];
    if n > 0 { SequencesPositive(log[..n]); }
  }

  lemma NumberedWith(files: map<nat, seq<Record>>, n: nat, index: nat, lines: seq<Record>)
    requires Numbered(files, n) && 1 <= index <= n + 1 && Own(lines, index)
    ensures Numbered(files[index := lines], if index > n then n + 1 else n)
  {
    hide Own;
  }

  lemma LinesOfLast(files: map<nat, seq<Record>>, n: nat, r: Record)
    requires Numbered(files, n) && r.segmentIndex == n
    ensures var next := files[n := files[n] + [r]];
            Numbered(next, n) && Lines(next, n) == Lines(files, n) + [r]
  {
    var next := files[n := files[n] + [r]];
    assert Own(files[n], n) && Own(files[n] + [r], n);
    NumberedWith(files, n, n, files[n] + [r]);
    hide Own;
    SameLines(files, next, n - 1);
    Reassociate(Lines(files, n - 1), files[n], r);
  }

  lemma SegmentsStep(options: Options, files: map<nat, seq<Record>>, k: nat, n: nat)
    requires Numbered(files, n) && 0 < k <= n && forall i | i in files :: files[i] != []
    ensures SegmentsOf(options, files, k, n) ==
            SegmentsOf(options, files, k - 1, n) + [SegmentOf(options, files[k], k, k == n)]
  {
    hide Own, SegmentOf;
  }

  lemma SegmentsOfLast(options: Options, files: map<nat, seq<Record>>, n: nat, r: Record)
    requires Numbered(files, n) && Numbered(files[n := files[n] + [r]], n)
    requires files[n] != [] && files[n][0].sequence > 0
    ensures var next := files[n := files[n] + [r]];
            SegmentsOf(options, next, n, n) ==
            SegmentsOf(options, files, n - 1, n) + [Counted(options, SegmentOf(options, files[n], n, true), r)]
  {
    hide Own, FileBytes, LineBytes, SegmentsOf, SegmentOf, Counted;
    var next := files[n := files[n] + [r]];
    NoneEmpty(files, n);
    NoneEmpty(next, n);
    SameSegments(options, files, next, n - 1, n, n);
    CountedLast(options, files[n], n, r);
    SegmentsStep(options, next, n, n);
  }

  lemma AppendToLast(options: Options, files: map<nat, seq<Record>>, n: nat, r: Record)
    requires Numbered(files, n) && r.segmentIndex == n && files[n][0].sequence > 0
    ensures var next := AppendLine(files, r);
            && Numbered(next, n) && next == files[n := files[n] + [r]]
            && Lines(next, n) == Lines(files, n) + [r]
            && SegmentsOf(options, next, n, n) ==
               SegmentsOf(options, files, n - 1, n) + [Counted(options, SegmentOf(options, files[n], n, true), r)]
  {
    assert Own(files[n], n);
    hide SegmentOf, Counted, Own, Lines, SegmentsOf;
    LinesOfLast(files, n, r);
    SegmentsOfLast(options, files, n, r);
  }

  lemma Reassociate(a: seq<Record>, b: seq<Record>, r: Record)
    ensures a + (b + [r]) == (a + b) + [r]
  {
  }

  lemma LinesOfNext(files: map<nat, seq<Record>>, n: nat, r: Record)
    requires Numbered(files, n) && r.segmentIndex == n + 1
    ensures var next := files[n + 1 := [r]];
            Numbered(next, n + 1) && Lines(next, n + 1) == Lines(files, n) + [r]
  {
    assert Own([r], n + 1);
    NumberedWith(files, n, n + 1, [r]);
    hide Own;
    SameLines(files, files[n + 1 := [r]], n);
  }

  lemma SegmentsOfNext(options: Options, files: map<nat, seq<Record>>, n: nat, r: Record)
    requires Numbered(files, n) && Numbered(files[n + 1 := [r]], n + 1)
    requires files[n] != []
    ensures var next := files[n + 1 := [r]];
            SegmentsOf(options, next, n + 1, n + 1) ==
            SegmentsOf(options, files, n - 1, n) + [SegmentOf(options, files[n], n, true).(isSealed := true)]
            + [Counted(options, NewSegment(n + 1, r.sequence), r)]
  {
    hide Own, FileBytes, LineBytes, SegmentsOf, SegmentOf, Counted;
    var next := files[n + 1 := [r]];
    NoneEmpty(files, n);
    NoneEmpty(next, n + 1);
    NewSegmentCounted(options, n + 1, r);
    SealedLast(options, files[n], n);
    SegmentsStep(options, next, n + 1, n + 1);
    SegmentsStep(options, next, n, n + 1);
    SameSegments(options, files, files[n + 1 := [r]], n - 1, n, n + 1);
  }

  lemma AppendToNext(options: Options, files: map<nat, seq<Record>>, n: nat, r: Record)
    requires Numbered(files, n) && r.segmentIndex == n + 1
    ensures var next := AppendLine(files, r);
            && Numbered(next, n + 1) && next == files[n + 1 := [r]]
            && Lines(next, n + 1) == Lines(files, n) + [r]
            && files[n] != []
            && SegmentsOf(options, next, n + 1, n + 1) ==
               SegmentsOf(options, files, n - 1, n) + [SegmentOf(options, files[n], n, true).(isSealed := true)]
               + [Counted(options, NewSegment(n + 1, r.sequence), r)]
  {
    assert Own(files[n], n) && [] + [r] == [r];
    hide SegmentOf, Counted, Own, Lines, SegmentsOf;
    LinesOfNext(files, n, r);
    SegmentsOfNext(options, files, n, r);
  }

  lemma PlanIs(options: Options, files: map<nat, seq<Record>>, n: nat, draft: Record)
    requires Numbered(files, n) && Lines(files, n) != []
    ensures var m := ManifestOf(options, files, n);
            var init, last := SegmentsOf(options, files, n - 1, n), SegmentOf(options, files[n], n, true);
            var r := draft.(sequence := m.revision + 1, revision := m.revision + 1, segmentIndex := n);
            var moved := r.(segmentIndex := n + 1);
            AppendPlan(options, m, draft) ==
            if IsFull(options, m, last, r) then
              (moved, AfterAppend(options, m, moved, init + [last.(isSealed := true)] +
                                  [Counted(options, NewSegment(n + 1, m.revision + 1), moved)]))
            else (r, AfterAppend(options, m, r, init + [Counted(options, last, r)]))
  {
    PlanParts(options, files, n);
    hide Lines, SegmentsOf, SegmentOf, Counted, FindSegment, IsFull, AfterAppend, Own;
    var m := ManifestOf(options, files, n);
    var init, last := SegmentsOf(options, files, n - 1, n), SegmentOf(options, files[n], n, true);
    var r := draft.(sequence := m.revision + 1, revision := m.revision + 1, segmentIndex := n);
    ReplaceLast(init, last, last.(isSealed := true));
    ReplaceLast(init, last, Counted(options, last, r));
  }

  ghost predicate AllWithin(options: Options, files: map<nat, seq<Record>>) {
    forall i | i in files :: Within(options, files[i])
  }

  lemma WithinUpdate(options: Options, files: map<nat, seq<Record>>, index: nat, lines: seq<Record>)
    requires AllWithin(options, files) && Within(options, lines)
    ensures AllWithin(options, files[index := lines])
  {
    hide Within;
  }

  // The files and the manifest after one more record.
  ghost predicate Grown(options: Options, files: map<nat, seq<Record>>, n: nat, draft: Record, r: Record, n': nat)
    requires Numbered(files, n) && Lines(files, n) != []
  {
    var m := ManifestOf(options, files, n);
    var next := AppendLine(files, r);
    && r == draft.(sequence := m.revision + 1, revision := m.revision + 1, segmentIndex := n')
    && Numbered(next, n') && Lines(next, n') == Lines(files, n) + [r]
    && AllWithin(options, next)
    && AppendPlan(options, m, draft) == (r, AfterAppend(options, m, r, SegmentsOf(options, next, n', n')))
  }

  lemma GrowsLast(options: Options, files: map<nat, seq<Record>>, n: nat, draft: Record, r: Record)
    requires Numbered(files, n) && Lines(files, n) != [] && AllWithin(options, files) && files[n][0].sequence > 0
    requires var m := ManifestOf(options, files, n);
             && r == draft.(sequence := m.revision + 1, revision := m.revision + 1, segmentIndex := n)
             && !IsFull(options, m, SegmentOf(options, files[n], n, true), r)
    ensures Grown(options, files, n, draft, r, n)
  {
    PlanIs(options, files, n, draft);
    FileBytesSnoc(options, files[n], r);
    assert Own(files[n], n) && Within(options, files[n]);
    assert Within(options, files[n] + [r]);
    WithinUpdate(options, files, n, files[n] + [r]);
    hide Lines, SegmentsOf, Counted, AfterAppend, IsFull, Within, AllWithin, SegmentOf, Own, AppendPlan, AppendLine;
    AppendToLast(options, files, n, r);
  }

  lemma GrowsNext(options: Options, files: map<nat, seq<Record>>, n: nat, draft: Record, r: Record)
    requires Numbered(files, n) && Lines(files, n) != [] && AllWithin(options, files) && files[n][0].sequence > 0
    requires var m := ManifestOf(options, files, n);
             && r == draft.(sequence := m.revision + 1, revision := m.revision + 1, segmentIndex := n + 1)
             && IsFull(options, m, SegmentOf(options, files[n], n, true), r.(segmentIndex := n))
    ensures Grown(options, files, n, draft, r, n + 1)
  {
    PlanIs(options, files, n, draft);
    assert Own(files[n], n) && files[n] != [];
    assert Within(options, [r]);
    var m := ManifestOf(options, files, n);
    var held := draft.(sequence := m.revision + 1, revision := m.revision + 1, segmentIndex := n);
    assert held == r.(segmentIndex := n) && held.(segmentIndex := n + 1) == r;
    WithinUpdate(options, files, n + 1, [r]);
    hide Lines, SegmentsOf, Counted, AfterAppend, IsFull, Within, AllWithin, SegmentOf, Own, AppendPlan, AppendLine;
    AppendToNext(options, files, n, r);
  }

  // A record goes to the last segment while it has room, to a new one otherwise.
  lemma FilesGrow(options: Options, files: map<nat, seq<Record>>, n: nat, draft: Record) returns (r: Record, n': nat)
    requires Numbered(files, n) && Lines(files, n) != [] && AllWithin(options, files) && files[n][0].sequence > 0
    ensures Grown(options, files, n, draft, r, n')
  {
    assert files[n] != [] by { assert Own(files[n], n); }
    hide Lines, SegmentsOf, IsFull, AllWithin, Own, Grown, FileBytes;
    var m := ManifestOf(options, files, n);
    r := draft.(sequence := m.revision + 1, revision := m.revision + 1, segmentIndex := n);
    if IsFull(options, m, SegmentOf(options, files[n], n, true), r) {
      var moved := r.(segmentIndex := n + 1);
      assert moved.(segmentIndex := n) == r;
      GrowsNext(options, files, n, draft, moved);
      r, n' := moved, n + 1;
    } else {
      GrowsLast(options, files, n, draft, r);
      n' := n;
    }
  }

  // Appending one record keeps the log's invariant.
  lemma AppendKeeps(options: Options, d: Disk, n: nat, draft: Record, after: string) returns (r: Record, n': nat)
    requires LogInv(options, d, n) && d.manifest.Some? && Follows(Lines(d.files, n), draft, after)
    ensures var plan := AppendPlan(options, d.manifest.value, draft);
            var next := Disk(AppendLine(d.files, r), Some(plan.1), d.document);
            && plan.0 == r && LogInv(options, next, n')
            && Lines(next.files, n') == Lines(d.files, n) + [r]
    ensures Replay(Lines(d.files, n) + [r]) == Some(Replayed(after, |Lines(d.files, n)| + 1))
    ensures r == draft.(sequence := r.sequence, revision := r.revision, segmentIndex := r.segmentIndex)
  {
    hide Chained, Replay, SegmentsOf, AppendPlan, AppendLine, AllWithin, Own, ApplyMarkdownOperation, Grown;
    var log := Lines(d.files, n);
    NoneEmpty(d.files, n);
    ChainedNotEmpty(log);
    SequencesPositive(log);
    FirstSequences(d.files, n, log);
    hide Lines;
    r, n' := FilesGrow(options, d.files, n, draft);
    GrownKeeps(options, d, n, draft, after, r, n');
  }

  lemma GrownKeeps(options: Options, d: Disk, n: nat, draft: Record, after: string, r: Record, n': nat)
    requires LogInv(options, d, n) && d.manifest.Some? && Follows(Lines(d.files, n), draft, after)
    requires Lines(d.files, n) != [] && Grown(options, d.files, n, draft, r, n')
    ensures var plan := AppendPlan(options, d.manifest.value, draft);
            var next := Disk(AppendLine(d.files, r), Some(plan.1), d.document);
            && plan.0 == r && LogInv(options, next, n')
            && Lines(next.files, n') == Lines(d.files, n) + [r]
    ensures Replay(Lines(d.files, n) + [r]) == Some(Replayed(after, |Lines(d.files, n)| + 1))
    ensures r == draft.(sequence := r.sequence, revision := r.revision, segmentIndex := r.segmentIndex)
  {
    hide Lines, Chained, Replay, SegmentsOf, AppendPlan, AppendLine, AllWithin, Own, ApplyMarkdownOperation, Follows;
    var log := Lines(d.files, n);
    ChainExtends(log, draft, after, r);
    assert (log + [r])[0] == log[0] && (log + [r])[|log|] == r;
  }

  lemma SealedLast(options: Options, lines: seq<Record>, index: nat)
    requires lines != []
    ensures SegmentOf(options, lines, index, true).(isSealed := true) == SegmentOf(options, lines, index, false)
  {
  }

  lemma ReplaceLast(segments: seq<Segment>, s: Segment, t: Segment)
    ensures (segments + [s])[|segments| := t] == segments + [t]
  {
  }
}
