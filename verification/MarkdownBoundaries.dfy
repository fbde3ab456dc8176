// Where the guarantees of a document's log end: idempotency keys that do not name
// their own submission, logs created from text that is not normalized, and
// crashes that part a line from its manifest.
module MarkdownBoundaries {
  import opened Text
  import opened Wrappers
  import opened MarkdownDocument
  import opened MarkdownRewrites
  import opened MarkdownAppends
  import opened MarkdownOplog
  import opened MarkdownOperations
  import opened MarkdownRecovery
  import opened MarkdownRuns

  // ------------------------------------------------------- idempotency keys

  lemma Finishes(options: Options, d: Disk, s: Submission)
    requires EnsureLog(options, d, Current(options, d), NoCrash).Done?
    ensures !ApplyNowOn(options, d, s, NoCrash).1.Crashed?
  {
    hide EnsureLog, ReadRecords, FindByKey, Replay, ApplyMarkdownOperation, AppendPlan;
    EnsureFinishes(options);
  }

  lemma EnsureFinishes(options: Options)
    ensures forall d: Disk, content: string :: !EnsureLog(options, d, content, NoCrash).CrashedAt?
  {
    hide ReadRecords, RebuiltManifest;
  }

  // A submission of a supported operation is answered from the log exactly when
  // its key is known there, and is applied otherwise.
  lemma AnsweredIffKnown(options: Options, d: Disk, s: Submission)
    requires Inv(options, d) && Benign(options, d, Submit(s, NoCrash)) && !s.operation.Unsupported?
    ensures var outcome := ApplyNowOn(options, d, s, NoCrash).1;
            if Known(InitialKey(options), Entries(LogOf(d)), s.key) then outcome.Deduped? else outcome.Applied?
  {
    var n := EnsureKeeps(options, d, NoCrash);
    hide Inv, ReadRecords, FileIsReplay, Known, Entries, Base, ApplyNowOn, EnsureLog, FindByIdempotencyKey, Normalized,
         EnsuredAs;
    EnsureFinishes(options);
    Finishes(options, d, s);
    SubmitKeeps(options, d, s, NoCrash);
    BaseEntries(options, d);
    FoundIffKnown(options, Base(options, d), s.key);
  }

  lemma AfterSubmission(options: Options, d: Disk, s: Submission)
    requires Inv(options, d) && Benign(options, d, Submit(s, NoCrash)) && !s.operation.Unsupported?
    ensures var d1 := ApplyNowOn(options, d, s, NoCrash).0;
            Inv(options, d1) && forall e :: Benign(options, d1, e)
  {
    AnsweredIffKnown(options, d, s);
    BaseEntries(options, d);
    hide ReadRecords, FileIsReplay, Known, Entries, Base, ApplyNowOn, FindByIdempotencyKey, Normalized, LogInv,
         InitialKey;
    SubmitKeeps(options, d, s, NoCrash);
    var d1 := ApplyNowOn(options, d, s, NoCrash).0;
    if d1.files == map[] { FreshLog(d1); }
  }

  // A submission that is sent and then retried adds exactly one entry, when no
  // entry has its trimmed key, if and only if its key is trimmed, is not empty
  // and is not the snapshot's.
  lemma ExactlyOnceIffProper(options: Options, d: Disk, s: Submission, again: Submission)
    requires Inv(options, d) && Benign(options, d, Submit(s, NoCrash)) && !s.operation.Unsupported?
    requires again.key == s.key && !again.operation.Unsupported?
    requires !HasKey(Entries(LogOf(d)), Trim(s.key))
    ensures var d1 := ApplyNowOn(options, d, s, NoCrash).0;
            var d2 := ApplyNowOn(options, d1, again, NoCrash).0;
            |Entries(LogOf(d2))| == |Entries(LogOf(d))| + 1 <==> ProperKey(options, s.key)
  {
    AnsweredIffKnown(options, d, s);
    AfterSubmission(options, d, s);
    StepEntries(options, d, s, NoCrash);
    hide Inv, ReadRecords, Benign, Entries, ApplyNowOn, Trim, InitialKey;
    var d1 := ApplyNowOn(options, d, s, NoCrash).0;
    AnsweredIffKnown(options, d1, again);
    StepEntries(options, d1, again, NoCrash);
    HasKeyConcat(Entries(LogOf(d)), [Entry(s.key, s.operation)], Trim(s.key));
    var one := [Entry(s.key, s.operation)];
    assert one[0].key == s.key;
  }

  // The key of the snapshot is answered from it: the operation is lost.
  lemma InitialKeyIsLost(options: Options, d: Disk, s: Submission)
    requires Inv(options, d) && Benign(options, d, Submit(s, NoCrash)) && !s.operation.Unsupported?
    requires Trim(s.key) == InitialKey(options)
    ensures var (d1, outcome) := ApplyNowOn(options, d, s, NoCrash);
            outcome.Deduped? && Entries(LogOf(d1)) == Entries(LogOf(d))
  {
    assert InitialKey(options) != "";
    AnsweredIffKnown(options, d, s);
    hide Inv, ReadRecords, Benign, Entries, ApplyNowOn, Trim, InitialKey, HasKey;
    StepEntries(options, d, s, NoCrash);
  }

  // For the memory file of an agent that key is one any caller can send.
  lemma MemoryKeyIsLost(options: Options, d: Disk, s: Submission)
    requires Inv(options, d) && Benign(options, d, Submit(s, NoCrash)) && !s.operation.Unsupported?
    requires options.relPath == "MEMORY.md" && s.key == "initial:MEMORY.md"
    ensures ApplyNowOn(options, d, s, NoCrash).1.Deduped?
    ensures Entries(LogOf(ApplyNowOn(options, d, s, NoCrash).0)) == Entries(LogOf(d))
  {
    TrimFixed(s.key);
    assert InitialKey(options) == s.key;
    InitialKeyIsLost(options, d, s);
  }

  // A retry of an applied submission is recognised exactly when its key is
  // already trimmed and not empty: the lookup trims, the record does not.
  lemma RetryDedupedIffTrimmed(options: Options, d: Disk, s: Submission, again: Submission)
    requires Inv(options, d) && Benign(options, d, Submit(s, NoCrash)) && !s.operation.Unsupported?
    requires again.key == s.key && !again.operation.Unsupported?
    requires ApplyNowOn(options, d, s, NoCrash).1.Applied?
    ensures var d1 := ApplyNowOn(options, d, s, NoCrash).0;
            ApplyNowOn(options, d1, again, NoCrash).1.Deduped? <==> s.key != "" && Trim(s.key) == s.key
  {
    AnsweredIffKnown(options, d, s);
    AfterSubmission(options, d, s);
    StepEntries(options, d, s, NoCrash);
    assert Trim("") == "";
    hide Inv, ReadRecords, Benign, Entries, ApplyNowOn, Trim, InitialKey;
    var d1 := ApplyNowOn(options, d, s, NoCrash).0;
    AnsweredIffKnown(options, d1, again);
    var one := [Entry(s.key, s.operation)];
    HasKeyConcat(Entries(LogOf(d)), one, Trim(s.key));
    assert one[0].key == s.key;
  }

  // A key with a space before it: the retry is applied once more.
  lemma SpacedKeyIsRepeated(options: Options, s: Submission)
    requires s.key == " k" && !s.operation.Unsupported?
    ensures var d := Disk(map[], None, Some("\n"));
            var (d1, first) := ApplyNowOn(options, d, s, NoCrash);
            first.Applied? && ApplyNowOn(options, d1, s, NoCrash).1.Applied?
  {
    var d := Disk(map[], None, Some("\n"));
    assert s.key[1..] == "k";
    TrimFixed("k");
    assert Trim(s.key) == "k" && Trim(s.key) != InitialKey(options) by { assert InitialKey(options)[0] == 'i'; }
    assert Normalized("\n") by { NewlineIsNormalized(); }
    FreshLog(d);
    assert Fresh(d) && Inv(options, d);
    hide Trim, InitialKey, ReadRecords, Normalized, ApplyNowOn, Inv;
    assert Entries(LogOf(d)) == [];
    AnsweredIffKnown(options, d, s);
    RetryDedupedIffTrimmed(options, d, s, s);
    AfterSubmission(options, d, s);
    AnsweredIffKnown(options, ApplyNowOn(options, d, s, NoCrash).0, s);
  }

  lemma NewlineIsNormalized()
    ensures EnsureTrailingNewline("\n") == "\n"
  {
    EnsureTrailingNewlineIdempotent("");
    assert EnsureTrailingNewline("") == "\n";
  }

  // ------------------------------------------------- text that is not normalized

  // The manifest hash of a new log is the hash of its replay exactly when the
  // text it was created from is normalized.
  lemma CreationHashIffNormalized(options: Options, d: Disk)
    requires Fresh(d)
    ensures var r := EnsureLog(options, d, Current(options, d), NoCrash);
            && r.Done? && LogOf(r.disk) == [InitialRecord(options, Current(options, d))]
            && Replay(LogOf(r.disk)).Some?
            && (r.value.documentHash == ContentHash(Replay(LogOf(r.disk)).value.content) <==>
                Normalized(Current(options, d)))
  {
    var content := Current(options, d);
    var r := InitialRecord(options, content);
    FreshLog(d);
    ReadsOneRecord(d.files[1 := [r]], r);
    ReplaysSnapshot(r, content);
    hide ReadRecords, Replay, EnsureTrailingNewline, RebuiltManifest;
  }

  lemma ReadsOneRecord(files: map<nat, seq<Record>>, r: Record)
    requires files == map[1 := [r]] && r.segmentIndex == 1
    ensures ReadRecords(files) == [r]
  {
    assert files.Keys == {1};
    ListingOfRange(files.Keys, 1);
    assert Range(0) == [] && Range(1) == [1];
    assert [1][..0] == [] && [r][..0] == [];
    assert ReadFiles(files, []) == [];
    assert Indexed([r], 1) == [r];
    assert ReadFiles(files, [1]) == [r];
    hide ReadFiles, Indexed;
    assert SortBySequence([]) == [] && SortBySequence([r]) == [r];
  }

  lemma ReplaysSnapshot(r: Record, content: string)
    requires r.operation == InitialSnapshot(content) && r.revision == 1
    ensures Replay([r]) == Some(Replayed(EnsureTrailingNewline(content), 1))
  {
    hide EnsureTrailingNewline;
    assert [r][..0] == [];
    assert Replay([]) == Some(Replayed("", 0));
  }

  // Text without its final newline is where they differ.
  lemma UnfinishedLineDiffers(options: Options)
    ensures var d := Disk(map[], None, Some("a"));
            var r := EnsureLog(options, d, "a", NoCrash);
            && r.Done? && Replay(LogOf(r.disk)).Some?
            && r.value.documentHash == ContentHash("a") != ContentHash(Replay(LogOf(r.disk)).value.content)
  {
    var d := Disk(map[], None, Some("a"));
    assert "a" != EnsureTrailingNewline("a") by {
      var t := EnsureTrailingNewline("a");
      assert t[|t| - 1] == '\n';
    }
    hide EnsureTrailingNewline, ReadRecords, Replay;
    CreationHashIffNormalized(options, d);
  }

  lemma SortTwo(first: Record, second: Record)
    requires first.sequence <= second.sequence
    ensures SortBySequence([first] + [second]) == [first, second]
  {
    var both := [first, second];
    assert [first] + [second] == both && both[..1] == [first] && [first][..0] == [];
    assert SortBySequence([first]) == [first];
  }

  lemma TwoRecords(options: Options, files: map<nat, seq<Record>>, n: nat, first: Record, second: Record)
    requires Numbered(files, n) && Lines(files, n) == [first] + [second] && first.sequence <= second.sequence
    ensures ReadRecords(files) == [first, second]
  {
    hide Lines, Own, Has, ReadFiles, SortBySequence, ListSegmentFiles, Range;
    assert forall i :: i in files.Keys <==> 1 <= i <= n by { NumberedKeys(files, n); }
    hide Numbered;
    ListingOfRange(files.Keys, n);
    ReadRange(files, n, n);
    ListingSound(files.Keys);
    SortTwo(first, second);
  }

  lemma NumberedKeys(files: map<nat, seq<Record>>, n: nat)
    requires Numbered(files, n)
    ensures forall i :: i in files.Keys <==> 1 <= i <= n
  {
    hide Own;
  }

  lemma ReplayTwo(first: Record, second: Record, content: string)
    requires first.operation == InitialSnapshot(content) && first.revision == 1 && second.revision == 2
    ensures var after := ApplyMarkdownOperation(EnsureTrailingNewline(content), second.operation);
            Replay([first, second]) == if after.None? then None else Some(Replayed(after.value, 2))
  {
    ReplaysSnapshot(first, content);
    hide EnsureTrailingNewline, ApplyMarkdownOperation;
    assert [first, second][..1] == [first];
  }

  // The disk when a log has just been created.
  function Created(options: Options, d: Disk): Disk {
    var content := Current(options, d);
    d.(files := map[1 := [InitialRecord(options, content)]], manifest := Some(InitialManifest(options, content)))
  }

  lemma CreatedShape(options: Options, d: Disk)
    requires Fresh(d)
    ensures var c, first := Created(options, d), InitialRecord(options, Current(options, d));
            && EnsureLog(options, d, Current(options, d), NoCrash) == Done(c, c.manifest.value)
            && LogOf(c) == [first] && Numbered(c.files, 1) && Lines(c.files, 1) == [first] &&
                AllWithin(options, c.files)
            && c.manifest == Some(ManifestOf(options, c.files, 1))
            && c.manifest.value.documentHash == ContentHash(Current(options, d))
  {
    var first := InitialRecord(options, Current(options, d));
    FreshLog(d);
    ReadsOneRecord(map[1 := [first]], first);
    InitialFiles(options, first);
    assert d.files[1 := [first]] == map[1 := [first]];
    hide ReadRecords, Numbered, AllWithin, FileBytes, SegmentsOf, Lines;
  }

  lemma FirstCommit(options: Options, d: Disk, s: Submission)
    requires Fresh(d) && !Known(InitialKey(options), [], s.key) && s.operation != Unsupported("")
    ensures ApplyNowOn(options, d, s, NoCrash) == Commit(options, Created(options, d), Current(options, d), s, NoCrash)
  {
    CreatedShape(options, d);
    var first := InitialRecord(options, Current(options, d));
    assert Entries([first]) == [];
    FoundIffKnown(options, [first], s.key);
    hide ReadRecords, EnsureLog, Commit, FindByIdempotencyKey, Known, Created, Numbered, AllWithin, Lines, ManifestOf,
         Entries;
  }

  // The record and the disk after the first operation on a log just created.
  lemma FirstRecord(options: Options, d: Disk, s: Submission, after: string) returns (r: Record)
    requires Fresh(d) && ApplyMarkdownOperation(Current(options, d), s.operation) == Some(after)
    requires !Known(InitialKey(options), [], s.key) && s.operation != Unsupported("")
    ensures var (d1, outcome) := ApplyNowOn(options, d, s, NoCrash);
            && outcome == Applied(r) && Committed(s, r) && r.revision == 2
            && LogOf(d1) == [InitialRecord(options, Current(options, d)), r]
            && d1.document == Some(after) && d1.manifest.Some?
            && d1.manifest.value.documentHash == ContentHash(after) && d1.manifest.value.revision == 2
  {
    hide ReadRecords, ApplyMarkdownOperation, Lines, Numbered, SegmentsOf, AllWithin, AppendLine, AppendPlan, Known,
         InitialManifest, FileBytes, ApplyNowOn, InitialRecord, Created;
    var content, c := Current(options, d), Created(options, d);
    var first := InitialRecord(options, content);
    CreatedShape(options, d);
    FirstCommit(options, d, s);
    CreatedFiles(options, d);
    var n';
    r, n' := FilesGrow(options, c.files, 1, Draft(s, ContentHash(content), ContentHash(after)));
    TwoRecords(options, AppendLine(c.files, r), n', first, r);
  }

  lemma CreatedFiles(options: Options, d: Disk)
    ensures var first := InitialRecord(options, Current(options, d));
            && Created(options, d).files == map[1 := [first]] && Created(options, d).document == d.document
            && first.sequence == 1
  {
    hide InitialManifest;
  }

  // On text that is not normalized the file is the replay after the first
  // operation exactly when the operation does the same to the normalized text.
  lemma FirstApplyIsReplayIff(options: Options, d: Disk, s: Submission)
    requires Fresh(d) && !s.operation.Unsupported? && !Known(InitialKey(options), [], s.key)
    ensures var (d1, outcome) := ApplyNowOn(options, d, s, NoCrash);
            var content := Current(options, d);
            && outcome.Applied?
            && (FileIsReplay(d1) <==>
                  ApplyMarkdownOperation(content, s.operation) ==
                  ApplyMarkdownOperation(EnsureTrailingNewline(content), s.operation))
  {
    var content := Current(options, d);
    OnlyUnsupportedThrows(content, s.operation);
    OnlyUnsupportedThrows(EnsureTrailingNewline(content), s.operation);
    hide ApplyMarkdownOperation, EnsureTrailingNewline, ApplyNowOn, ReadRecords, Replay, Known;
    var after := ApplyMarkdownOperation(content, s.operation).value;
    var r := FirstRecord(options, d, s, after);
    ReplayTwo(InitialRecord(options, content), r, content);
  }

  // The operation adds a section that the text does not have.
  predicate AddsSection(operation: Operation, content: string) {
    match operation
    case UpsertBullet(heading, _, _) => LacksSection(content, heading)
    case ReplaceSection(heading, _) => LacksSection(content, heading)
    case _ => false
  }

  predicate LacksSection(content: string, heading: string) {
    FindHeading(DocumentLines(content), SectionHeadingAliases(heading)) == |DocumentLines(content)|
  }

  // The lines under the heading that such an operation adds.
  function AddedBody(operation: Operation): (string, seq<string>)
    requires operation.UpsertBullet? || operation.ReplaceSection?
  {
    match operation
    case UpsertBullet(heading, text, _) => (HeadingLine(heading), [text])
    case ReplaceSection(heading, markdown) => (HeadingLine(heading), GivenBody(markdown))
  }

  lemma AddsText(operation: Operation, content: string)
    requires AddsSection(operation, content)
    ensures var (h, body) := AddedBody(operation);
            ApplyMarkdownOperation(content, operation) == Some(Render(AppendSection(DocumentLines(content), h, body)))
  {
    hide DocumentLines, FindHeading, AppendSection, Render, HeadingLine, SectionHeadingAliases, IsSectionHeading;
  }

  // When the first operation adds a section, that is when the text is not empty
  // and the white space at its end is newlines.
  lemma FirstSectionIsReplayIff(options: Options, d: Disk, s: Submission)
    requires Fresh(d) && !Known(InitialKey(options), [], s.key)
    requires AddsSection(s.operation, Current(options, d))
    ensures var (d1, outcome) := ApplyNowOn(options, d, s, NoCrash);
            outcome.Applied? && (FileIsReplay(d1) <==> NewlinesAtEnd(Current(options, d)))
  {
    var content, normal := Current(options, d), EnsureTrailingNewline(Current(options, d));
    var (h, body) := AddedBody(s.operation);
    AddsText(s.operation, content);
    hide DocumentLines, Render, AppendSection, EnsureTrailingNewline, ApplyMarkdownOperation, ApplyNowOn, Known,
         FileIsReplay, NewlinesAtEnd, SectionHeadingAliases, FindHeading, GivenBody;
    FirstApplyIsReplayIff(options, d, s);
    match s.operation {
      case UpsertBullet(heading, _, _) => NormalizedLacks(content, SectionHeadingAliases(heading));
      case ReplaceSection(heading, _) => NormalizedLacks(content, SectionHeadingAliases(heading));
    }
    AddsText(s.operation, normal);
    AppendAgreesIff(content, h, body);
  }

  // A space after the last word is kept in the file and not in the replay; so is
  // the missing line of an empty text.
  lemma FirstSectionCanDiffer(options: Options, s: Submission, text: string)
    requires text in ["a ", ""] && !Known(InitialKey(options), [], s.key) && s.operation == UpsertBullet("H", "- b", 0)
    ensures var (d1, outcome) := ApplyNowOn(options, Disk(map[], None, Some(text)), s, NoCrash);
            outcome.Applied? && !FileIsReplay(d1)
  {
    NoNewlinesAtEnd(text);
    hide ApplyNowOn, Known, FileIsReplay, NewlinesAtEnd;
    FirstSectionIsReplayIff(options, Disk(map[], None, Some(text)), s);
  }

  lemma NoNewlinesAtEnd(text: string)
    requires text in ["a ", ""]
    ensures !NewlinesAtEnd(text) && LacksSection(text, "H")
  {
    hide NewlinesAtEnd, LacksSection, Tail, AllNewlines, NormalizeNewline;
    ShortTextLacks(text, SectionHeadingAliases("H"));
    assert LacksSection(text, "H") by { LacksIs(text, "H"); }
    if text == "" { EmptyEnd(); } else { SpaceEnd(); }
  }

  lemma LacksIs(content: string, heading: string)
    ensures LacksSection(content, heading) <==>
            FindHeading(DocumentLines(content), SectionHeadingAliases(heading)) == |DocumentLines(content)|
  {
    hide DocumentLines, FindHeading, SectionHeadingAliases;
  }

  // Two characters are too few for a heading.
  lemma ShortTextLacks(text: string, aliases: seq<string>)
    requires |text| <= 2 && '\r' !in text && '\n' !in text
    ensures FindHeading(DocumentLines(text), aliases) == |DocumentLines(text)|
  {
    hide Trim, Split, NormalizeNewline, TrimStart, ToLower, NoTerminator;
    NormalizeNewlineFixed(text);
    SplitEmpty();
    SplitPrepend(text, "");
    TrimShortens(text);
    assert text + "" == text && DocumentLines(text) == [text] && [text][1..] == [];
  }

  lemma EmptyEnd()
    ensures !NewlinesAtEnd("")
  {
    hide Tail, AllNewlines, NormalizeNewline;
  }

  lemma SpaceEnd()
    ensures !NewlinesAtEnd("a ")
  {
    hide TrimEnd, NormalizeNewline;
    NormalizeNewlineFixed("a ");
    TrimEndConcat("a", " ");
    assert "a" + " " == "a ";
    assert Tail("a ")[0] == ' ';
  }

  // ------------------------------------------------------------- torn lines

  // A crash between a line and the manifest that counts it: while the older
  // manifest survives the invariant is lost, and the next record repeats the
  // sequence number; once that manifest is gone the invariant is back.
  lemma LineCrashNeedsManifestLoss(options: Options, d: Disk, n: nat, s: Submission, draft: Record)
    requires LogInv(options, d, n) && d.manifest.Some? && Replay(LogOf(d)).Some?
    requires !s.operation.Unsupported?
    ensures var (d1, outcome) := Commit(options, d, Replay(LogOf(d)).value.content, s, AfterLine);
            && outcome == Crashed && |LogOf(d1)| == |LogOf(d)| + 1
            && Inv(options, d1.(manifest := None)) && !Inv(options, d1)
            && AppendPlan(options, d1.manifest.value, draft).0.sequence == LogOf(d1)[|LogOf(d)|].sequence
  {
    hide Chained, Lines, ReadRecords, Numbered, ManifestOf, AppendLine, Replay, ApplyMarkdownOperation, AllWithin;
    LogKnown(options, d, n);
    ManifestHash(options, d, n);
    var content := Replay(LogOf(d)).value.content;
    OnlyUnsupportedThrows(content, s.operation);
    var after := ApplyMarkdownOperation(content, s.operation).value;
    var written := Draft(s, ContentHash(content), ContentHash(after));
    ChainedReplay(LogOf(d));
    var r, n' := AppendKeeps(options, d, n, written, after);
    var d1 := d.(files := AppendLine(d.files, r));
    assert LogInv(options, d1.(manifest := None), n');
    LogKnown(options, d1.(manifest := None), n');
    assert LogOf(d1) == LogOf(d1.(manifest := None));
    forall k | LogInv(options, d1, k) ensures false {
      ManifestHash(options, d1, k);
    }
  }
}
