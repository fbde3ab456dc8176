// Runs of one document: submissions that may crash between disk writes, edits
// of the Markdown file by others, and losses of the manifest.
module MarkdownRuns {
  import opened Text
  import opened Wrappers
  import opened MarkdownDocument
  import opened MarkdownOplog
  import opened MarkdownOperations
  import opened MarkdownRecovery

  datatype Event =
    | Submit(s: Submission, crash: CrashPoint)
    | Tamper(document: Option<string>)
    | LoseManifest

  function Current(options: Options, d: Disk): string {
    if d.document.Some? then d.document.value else options.defaultContent
  }

  function Next(options: Options, d: Disk, e: Event): Disk {
    match e
    case Submit(s, crash) => ApplyNowOn(options, d, s, crash).0
    case Tamper(document) => d.(document := document)
    case LoseManifest => d.(manifest := None)
  }

  function Run(options: Options, d: Disk, es: seq<Event>): Disk {
    if es == [] then d else Next(options, Run(options, d, es[..|es| - 1]), es[|es| - 1])
  }

  ghost predicate Normalized(content: string) {
    EnsureTrailingNewline(content) == content
  }

  // The log is created from normalized text.
  ghost predicate Benign(options: Options, d: Disk, e: Event) {
    e.Submit? ==> d.files == map[] ==> Normalized(Current(options, d))
  }

  // The submission crashes between its line and the manifest that counts it.
  predicate Tears(options: Options, d: Disk, e: Event) {
    e.Submit? && e.crash.AfterLine? && ApplyNowOn(options, d, e.s, e.crash).1.Crashed?
  }

  // The manifest on the disk is older than the last line.
  predicate Torn(options: Options, d: Disk, es: seq<Event>) {
    es != [] &&
    var init, e := es[..|es| - 1], es[|es| - 1];
    match e
    case Submit(_, _) => Tears(options, Run(options, d, init), e)
    case Tamper(_) => Torn(options, d, init)
    case LoseManifest => false
  }

  // After such a crash nothing is submitted until the older manifest is lost.
  ghost predicate BenignRun(options: Options, d: Disk, es: seq<Event>) {
    es == [] ||
    var init, e := es[..|es| - 1], es[|es| - 1];
    && BenignRun(options, d, init)
    && Benign(options, Run(options, d, init), e)
    && (e.Submit? ==> !Torn(options, d, init))
  }

  function LogOf(d: Disk): seq<Record> {
    ReadRecords(d.files)
  }

  // The file is the replay of the whole log, and the manifest knows its hash.
  ghost predicate FileIsReplay(d: Disk) {
    && Replay(LogOf(d)).Some?
    && d.document == Some(Replay(LogOf(d)).value.content)
    && d.manifest.Some? && d.manifest.value.documentHash == ContentHash(d.document.value)
    && d.manifest.value.revision == |LogOf(d)|
  }

  // ------------------------------------------------------------- one step

  lemma FreshLog(d: Disk)
    requires d.files == map[]
    ensures LogOf(d) == []
  {
    assert d.files.Keys == {};
  }

  lemma LogKnown(options: Options, d: Disk, n: nat)
    requires LogInv(options, d, n)
    ensures LogOf(d) == Lines(d.files, n) && Chained(LogOf(d)) && d.files != map[]
    ensures LogOf(d)[0].idempotencyKey == InitialKey(options)
  {
    ReadsLines(d.files, n);
  }

  lemma InitialChained(options: Options, content: string)
    requires Normalized(content)
    ensures var r := InitialRecord(options, content);
            Chained([r]) && Replay([r]) == Some(Replayed(content, 1))
  {
    var r := InitialRecord(options, content);
    assert [r][..0] == [];
    assert Replay([]) == Some(Replayed("", 0));
    assert ApplyMarkdownOperation("", r.operation) == Some(content);
    hide ApplyMarkdownOperation;
  }

  lemma InitialFiles(options: Options, r: Record)
    requires r.segmentIndex == 1
    ensures var files := map[1 := [r]];
            && Numbered(files, 1) && Lines(files, 1) == [r] && AllWithin(options, files)
            && SegmentsOf(options, files, 1, 1) == [SegmentOf(options, [r], 1, true)]
            && FileBytes(options, [r]) == LineBytes(options, r)
  {
    var files := map[1 := [r]];
    assert Own([r], 1);
    assert Lines(files, 0) == [] && [] + [r] == [r];
    assert SegmentsOf(options, files, 0, 1) == [];
    FileBytesSnoc(options, [], r);
  }

  lemma CreationKeeps(options: Options, d: Disk, content: string)
    requires Fresh(d) && Normalized(content)
    ensures var created := d.(files := d.files[1 := [InitialRecord(options, content)]]);
            && LogInv(options, created, 1)
            && LogInv(options, created.(manifest := Some(InitialManifest(options, content))), 1)
            && LogOf(created) == [InitialRecord(options, content)]
  {
    var r := InitialRecord(options, content);
    assert d.files[1 := [r]] == map[1 := [r]];
    InitialChained(options, content);
    InitialFiles(options, r);
    hide Chained, Replay, Numbered, Lines, SegmentsOf, AllWithin, ReadRecords, Normalized, FileBytes;
    LogKnown(options, d.(files := d.files[1 := [r]]), 1);
  }

  ghost predicate EnsuredAs(options: Options, d: Disk, d1: Disk, m: Manifest, n: nat) {
    && LogInv(options, d1, n) && d1.manifest == Some(m) && d1.document == d.document
    && LogOf(d1) == if LogOf(d) == [] then [InitialRecord(options, Current(options, d))] else LogOf(d)
  }

  // Ensuring the log never fails, and leaves the log that was there or a new one.
  lemma EnsureKeeps(options: Options, d: Disk, crash: CrashPoint) returns (n: nat)
    requires Inv(options, d) && (d.files == map[] ==> Normalized(Current(options, d)))
    ensures var r := EnsureLog(options, d, Current(options, d), crash);
            match r
            case Threw(_) => false
            case CrashedAt(d1) => Inv(options, d1) && LogOf(d) == [] &&
                LogOf(d1) == [InitialRecord(options, Current(options, d))]
            case Done(d1, m) => EnsuredAs(options, d, d1, m, n)
  {
    hide ReadRecords, Chained, Lines, Replay, RebuiltManifest, InitialManifest, InitialRecord, Numbered, ManifestOf;
    if Fresh(d) {
      n := 1;
      FreshLog(d);
      CreationKeeps(options, d, Current(options, d));
      LogKnown(options, d.(files := d.files[1 := [InitialRecord(options, Current(options, d))]]), 1);
    } else {
      n :| LogInv(options, d, n);
      LogKnown(options, d, n);
      ChainedNotEmpty(LogOf(d));
      RebuildsManifest(options, d.files, n);
    }
  }

  lemma ManifestHash(options: Options, d: Disk, n: nat)
    requires LogInv(options, d, n) && d.manifest.Some?
    ensures Replay(LogOf(d)).Some? && d.manifest.value.documentHash == ContentHash(Replay(LogOf(d)).value.content)
    ensures d.manifest.value.revision == |LogOf(d)|
  {
    hide Replay;
    LogKnown(options, d, n);
    ChainedReplay(LogOf(d));
  }

  ghost predicate Committed(s: Submission, r: Record) {
    r.idempotencyKey == s.key && r.operation == s.operation && r.operationId == s.operationId
  }

  // The log with one record more, that of the submission.
  ghost predicate OneMore(log: seq<Record>, before: seq<Record>, s: Submission) {
    |log| == |before| + 1 && log == before + [log[|before|]] && Committed(s, log[|before|])
  }

  // Committing on top of the replayed text.
  lemma CommitKeeps(options: Options, d: Disk, n: nat, s: Submission, crash: CrashPoint)
    requires LogInv(options, d, n) && d.manifest.Some? && Replay(LogOf(d)).Some?
    ensures var (d1, outcome) := Commit(options, d, Replay(LogOf(d)).value.content, s, crash);
            && Inv(options, d1.(manifest := None)) && ((outcome.Crashed? && crash.AfterLine?) || Inv(options, d1))
            && match outcome
               case Failed => d1 == d && ApplyMarkdownOperation(Replay(LogOf(d)).value.content, s.operation) == None
               case Applied(r) => LogOf(d1) == LogOf(d) + [r] && Committed(s, r) && FileIsReplay(d1)
               case Crashed => (crash.AfterManifest? || crash.AfterLine?) && OneMore(LogOf(d1), LogOf(d), s)
               case Deduped(_, _) => false
  {
    hide Chained, Lines, ReadRecords, Numbered, ManifestOf, AppendLine, AppendPlan, Replay, ApplyMarkdownOperation,
         AllWithin;
    LogKnown(options, d, n);
    var current := Replay(LogOf(d)).value.content;
    var applied := ApplyMarkdownOperation(current, s.operation);
    if applied.Some? {
      var draft := Draft(s, ContentHash(current), ContentHash(applied.value));
      ChainedReplay(LogOf(d));
      assert Follows(LogOf(d), draft, applied.value);
      var r, n' := AppendKeeps(options, d, n, draft, applied.value);
      var next := Disk(AppendLine(d.files, r), Some(AppendPlan(options, d.manifest.value, draft).1), d.document);
      LogKnown(options, next, n');
      ManifestHash(options, next, n');
      assert LogOf(next.(document := applied)) == LogOf(next);
      assert LogInv(options, next.(document := applied), n');
      assert LogInv(options, next.(manifest := None), n') &&
          LogInv(options, next.(document := applied, manifest := None), n');
      var torn := d.(files := next.files);
      assert torn.(manifest := None) == next.(manifest := None) && LogOf(torn) == LogOf(next);
    } else {
      assert LogInv(options, d.(manifest := None), n);
    }
  }

  // A submission whose record is in the log or will be found there: it was
  // answered, or it got as far as its line before a crash.
  predicate Took(outcome: Outcome, crash: CrashPoint) {
    outcome.Applied? || outcome.Deduped? || (outcome.Crashed? && (crash.AfterManifest? || crash.AfterLine?))
  }

  function Base(options: Options, d: Disk): seq<Record> {
    if LogOf(d) == [] then [InitialRecord(options, Current(options, d))] else LogOf(d)
  }

  // How one submission changes the log, whatever happened before it.
  ghost predicate StepKeeps(options: Options, d: Disk, s: Submission, crash: CrashPoint, d1: Disk, outcome: Outcome) {
    var found := FindByIdempotencyKey(Base(options, d), s.key);
    && Inv(options, d1.(manifest := None)) && ((outcome.Crashed? && crash.AfterLine?) || Inv(options, d1))
    && match outcome
       case Applied(r) => LogOf(d1) == Base(options, d) + [r] && Committed(s, r) && FileIsReplay(d1) && found == None
       case Deduped(id, revision) =>
         LogOf(d1) == Base(options, d) && found.Some? && found.value.operationId == id &&
             found.value.revision == revision
       case Failed =>
         (LogOf(d1) == Base(options, d) || (LogOf(d1) == LogOf(d) && s.operation == Unsupported(""))) &&
             s.operation.Unsupported?
       case Crashed =>
         if crash.AfterManifest? || crash.AfterLine? then found == None && OneMore(LogOf(d1), Base(options, d), s)
         else LogOf(d1) == Base(options, d)
  }

  lemma OnlyUnsupportedThrows(content: string, op: Operation)
    ensures ApplyMarkdownOperation(content, op) == None <==> op.Unsupported?
  {
  }

  lemma SubmitKeeps(options: Options, d: Disk, s: Submission, crash: CrashPoint)
    requires Inv(options, d) && Benign(options, d, Submit(s, crash))
    ensures var (d1, outcome) := ApplyNowOn(options, d, s, crash);
            StepKeeps(options, d, s, crash, d1, outcome)
  {
    hide EnsureLog, ReadRecords, FindByIdempotencyKey, Replay, ApplyMarkdownOperation, Committed, InitialRecord,
         FileIsReplay,
         Commit, LogInv, OneMore;
    if s.operation == Unsupported("") {
      OtherStepsKeep(options, d, d.document);
      return;
    }
    var n := EnsureKeeps(options, d, crash);
    var r := EnsureLog(options, d, Current(options, d), crash);
    if r.CrashedAt? {
      CrashesAtCreation(options, d, crash);
      OtherStepsKeep(options, r.disk, d.document);
      return;
    }
    var found := FindByIdempotencyKey(LogOf(r.disk), s.key);
    assert Inv(options, r.disk) && LogOf(r.disk) == Base(options, d);
    OtherStepsKeep(options, r.disk, d.document);
    if crash.AfterEnsure? || found.Some? { return; }
    ManifestHash(options, r.disk, n);
    var content := Replay(LogOf(r.disk)).value.content;
    var d2 := if ContentHash(Current(options, d)) == r.value.documentHash then r.disk
        else r.disk.(document := Some(content));
    assert Repaired(r.disk, r.value, Current(options, d)) == Some((d2, content));
    LogInvOfDocument(options, r.disk, n, Some(content));
    OtherStepsKeep(options, d2, d.document);
    if crash.AfterRepair? { return; }
    CommitKeeps(options, d2, n, s, crash);
    OnlyUnsupportedThrows(content, s.operation);
    assert ApplyNowOn(options, d, s, crash) == Commit(options, d2, content, s, crash);
  }

  lemma LogInvOfDocument(options: Options, d: Disk, n: nat, document: Option<string>)
    requires LogInv(options, d, n)
    ensures LogInv(options, d.(document := document), n) && LogOf(d.(document := document)) == LogOf(d)
  {
    hide Numbered, Chained, ManifestOf, AllWithin;
  }

  lemma CrashesAtCreation(options: Options, d: Disk, crash: CrashPoint)
    requires EnsureLog(options, d, Current(options, d), crash).CrashedAt?
    ensures crash.AfterLogCreated?
  {
    hide ReadRecords, RebuiltManifest;
  }

  // ------------------------------------------------------------- whole runs

  // What an unbroken run keeps: without its manifest the disk is always sound,
  // and with it too unless a crash has just torn a line from it.
  ghost predicate Sound(options: Options, d: Disk, torn: bool) {
    Inv(options, d.(manifest := None)) && (torn || Inv(options, d))
  }

  lemma NextKeeps(options: Options, d: Disk, e: Event, torn: bool)
    requires Sound(options, d, torn) && Benign(options, d, e) && (e.Submit? ==> !torn)
    ensures var next := match e
                        case Submit(_, _) => Tears(options, d, e)
                        case Tamper(_) => torn
                        case LoseManifest => false;
            Sound(options, Next(options, d, e), next)
  {
    hide LogInv, Normalized, ReadRecords, FindByIdempotencyKey, Base, FileIsReplay, Committed, ApplyNowOn;
    match e
    case Submit(s, crash) => SubmitKeeps(options, d, s, crash);
    case Tamper(document) =>
      OtherStepsKeep(options, d.(manifest := None), document);
      if !torn { OtherStepsKeep(options, d, document); }
    case LoseManifest =>
      assert d.(manifest := None).(manifest := None) == d.(manifest := None);
  }

  lemma OtherStepsKeep(options: Options, d: Disk, document: Option<string>)
    requires Inv(options, d)
    ensures Inv(options, d.(document := document)) && LogOf(d.(document := document)) == LogOf(d)
    ensures Inv(options, d.(manifest := None)) && LogOf(d.(manifest := None)) == LogOf(d)
  {
    hide Numbered, Chained, ManifestOf, AllWithin;
    if !Fresh(d) {
      var n :| LogInv(options, d, n);
      assert LogInv(options, d.(document := document), n) && LogInv(options, d.(manifest := None), n);
    }
  }

  lemma {:induction false} RunKeeps(options: Options, d: Disk, es: seq<Event>)
    requires Fresh(d) && BenignRun(options, d, es)
    ensures Sound(options, Run(options, d, es), Torn(options, d, es))
  {
    if es == [] {
      assert d.(manifest := None) == d && Inv(options, d);
    } else {
      hide Inv, Next, Benign, Sound, Tears;
      var init := es[..|es| - 1];
      RunKeeps(options, d, init);
      NextKeeps(options, Run(options, d, init), es[|es| - 1], Torn(options, d, init));
    }
  }

  ghost predicate Linked(log: seq<Record>) {
    forall i | 0 <= i < |log| ::
      log[i].sequence == log[i].revision == i + 1 && (i > 0 ==> log[i].beforeHash == log[i - 1].afterHash)
  }

  lemma {:induction false} ChainedIsLinked(log: seq<Record>)
    requires Chained(log)
    ensures Linked(log)
  {
    hide Replay;
    var n := |log| - 1;
    if n > 0 {
      ChainedIsLinked(log[..n]);
      assert forall i | 0 <= i < n :: log[i] == log[..n][i];
    }
  }

  lemma LogLinked(options: Options, d: Disk)
    requires Inv(options, d)
    ensures Linked(LogOf(d))
  {
    hide Chained, Numbered, ManifestOf, AllWithin, Lines;
    if Fresh(d) {
      FreshLog(d);
    } else {
      var n :| LogInv(options, d, n);
      LogKnown(options, d, n);
      ChainedIsLinked(LogOf(d));
    }
  }

  // In every run of submissions, edits of the file, losses of the manifest and
  // crashes anywhere, where a manifest that a crash left behind its last line is
  // lost before the next submission, the log stays linked, and an operation that
  // is reported applied leaves the file equal to the replay of the whole log,
  // under the hash and revision in the manifest.
  lemma AppliedIsReplayed(options: Options, d: Disk, es: seq<Event>, s: Submission, crash: CrashPoint)
    requires Fresh(d) && BenignRun(options, d, es + [Submit(s, crash)])
    ensures var (d1, outcome) := ApplyNowOn(options, Run(options, d, es), s, crash);
            && Inv(options, d1.(manifest := None)) && (outcome.Crashed? || Inv(options, d1)) && Linked(LogOf(d1))
            && !(outcome.Failed? && !s.operation.Unsupported?)
            && (outcome.Applied? ==>
                  FileIsReplay(d1) && outcome.record == LogOf(d1)[|LogOf(d1)| - 1] && Committed(s, outcome.record))
  {
    hide Inv, Benign, ApplyNowOn, Committed, FileIsReplay, ReadRecords, Linked, FindByIdempotencyKey, Base;
    var all := es + [Submit(s, crash)];
    assert all[..|all| - 1] == es;
    RunKeeps(options, d, es);
    var d0 := Run(options, d, es);
    SubmitKeeps(options, d0, s, crash);
    LogLinked(options, ApplyNowOn(options, d0, s, crash).0.(manifest := None));
    SameLog(ApplyNowOn(options, d0, s, crash).0);
  }

  lemma SameLog(d: Disk)
    ensures LogOf(d.(manifest := None)) == LogOf(d)
  {
  }

  // In every such run, losing the manifest first makes no difference to a
  // submission; one without an operation type fails and changes neither disk.
  lemma LossBeforeSubmit(options: Options, d: Disk, es: seq<Event>, s: Submission, crash: CrashPoint)
    requires Fresh(d) && BenignRun(options, d, es) && !Torn(options, d, es)
    ensures var d0 := Run(options, d, es);
            var lost := d0.(manifest := None);
            if s.operation == Unsupported("") then
              ApplyNowOn(options, d0, s, crash) == (d0, Failed) && ApplyNowOn(options, lost, s, crash) == (lost, Failed)
            else ApplyNowOn(options, lost, s, crash) == ApplyNowOn(options, d0, s, crash)
  {
    hide Numbered, Chained, ManifestOf, AllWithin, ReadRecords;
    RunKeeps(options, d, es);
    var d0 := Run(options, d, es);
    if d0.manifest.Some? {
      var n :| LogInv(options, d0, n);
      ManifestLossIsHarmless(options, d0, n, Current(options, d0), crash);
    } else {
      assert d0.(manifest := None) == d0;
    }
  }

  // ------------------------------------------------------------ exactly once

  datatype Entry = Entry(key: string, operation: Operation)

  // The log after its snapshot.
  function Entries(log: seq<Record>): seq<Entry> {
    if |log| <= 1 then []
    else
      var r := log[|log| - 1];
      Entries(log[..|log| - 1]) + [Entry(r.idempotencyKey, r.operation)]
  }

  // The submissions of a run that were answered or reached their line.
  function Taken(options: Options, d: Disk, es: seq<Event>): seq<Entry> {
    if es == [] then []
    else
      var init := es[..|es| - 1];
      Taken(options, d, init) +
      match es[|es| - 1]
      case Submit(s, crash) =>
        if Took(ApplyNowOn(options, Run(options, d, init), s, crash).1, crash) then [Entry(s.key, s.operation)] else []
      case _ => []
  }

  ghost predicate HasKey(entries: seq<Entry>, key: string) {
    exists i :: 0 <= i < |entries| && entries[i].key == key
  }

  // Each entry whose key no earlier entry has.
  ghost function FirstOccurrences(entries: seq<Entry>): seq<Entry> {
    if entries == [] then []
    else
      var init, last := entries[..|entries| - 1], entries[|entries| - 1];
      FirstOccurrences(init) + (if HasKey(init, last.key) then [] else [last])
  }

  // Whether a submission with this key is answered from the log: its trimmed key
  // is that of the snapshot, or is stored untrimmed as it is in an entry.
  ghost predicate Known(initialKey: string, kept: seq<Entry>, key: string) {
    Trim(key) != "" && (Trim(key) == initialKey || HasKey(kept, Trim(key)))
  }

  // Each entry that was not known when it came.
  ghost function Kept(initialKey: string, entries: seq<Entry>): seq<Entry> {
    if entries == [] then []
    else
      var kept, last := Kept(initialKey, entries[..|entries| - 1]), entries[|entries| - 1];
      kept + (if Known(initialKey, kept, last.key) then [] else [last])
  }

  lemma {:induction false} FirstOccurrencesKeys(entries: seq<Entry>, key: string)
    ensures HasKey(FirstOccurrences(entries), key) <==> HasKey(entries, key)
  {
    if entries != [] {
      var init, last := entries[..|entries| - 1], entries[|entries| - 1];
      FirstOccurrencesKeys(init, key);
      assert entries == init + [last];
      HasKeyConcat(init, [last], key);
      HasKeyConcat(FirstOccurrences(init), if HasKey(init, last.key) then [] else [last], key);
    }
  }

  lemma HasKeyConcat(a: seq<Entry>, b: seq<Entry>, key: string)
    ensures HasKey(a + b, key) <==> HasKey(a, key) || HasKey(b, key)
  {
    if HasKey(a, key) {
      var i :| 0 <= i < |a| && a[i].key == key;
      assert (a + b)[i].key == key;
    }
    if HasKey(b, key) {
      var i :| 0 <= i < |b| && b[i].key == key;
      assert (a + b)[|a| + i].key == key;
    }
  }

  lemma {:induction false} FindByKeySpec(records: seq<Record>, key: string)
    ensures FindByKey(records, key).Some? <==> exists r :: r in records && r.idempotencyKey == key
    ensures FindByKey(records, key).Some? ==>
              FindByKey(records, key).value in records && FindByKey(records, key).value.idempotencyKey == key
  {
    if records != [] {
      assert records == [records[0]] + records[1..];
      FindByKeySpec(records[1..], key);
      if records[0].idempotencyKey == key { assert records[0] in records; }
    }
  }

  lemma {:induction false} EntriesKeys(log: seq<Record>, key: string)
    requires log != [] && log[0].idempotencyKey != key
    ensures HasKey(Entries(log), key) <==> exists r :: r in log && r.idempotencyKey == key
  {
    var n := |log| - 1;
    var r := log[n];
    assert log == log[..n] + [r] && r in log;
    if n > 0 {
      EntriesKeys(log[..n], key);
      HasKeyConcat(Entries(log[..n]), [Entry(r.idempotencyKey, r.operation)], key);
      assert [Entry(r.idempotencyKey, r.operation)][0].key == r.idempotencyKey;
    }
  }

  lemma EntriesSnoc(log: seq<Record>, r: Record)
    requires log != []
    ensures Entries(log + [r]) == Entries(log) + [Entry(r.idempotencyKey, r.operation)]
  {
    assert (log + [r])[..|log|] == log;
  }

  // A key that names its own submission: it is found again as it is stored, and
  // it is not the snapshot's.
  predicate ProperKey(options: Options, key: string) {
    key != "" && Trim(key) == key && key != InitialKey(options)
  }

  ghost predicate ProperKeys(options: Options, es: seq<Event>) {
    forall e | e in es && e.Submit? :: ProperKey(options, e.s.key)
  }

  lemma BaseEntries(options: Options, d: Disk)
    requires Inv(options, d)
    ensures var base := Base(options, d);
            base != [] && base[0].idempotencyKey == InitialKey(options) && Entries(base) == Entries(LogOf(d))
  {
    hide Chained, Numbered, ManifestOf, AllWithin, Lines, ReadRecords;
    if Fresh(d) {
      FreshLog(d);
    } else {
      var n :| LogInv(options, d, n);
      LogKnown(options, d, n);
      ChainedNotEmpty(LogOf(d));
    }
  }

  lemma FoundIffKnown(options: Options, base: seq<Record>, key: string)
    requires base != [] && base[0].idempotencyKey == InitialKey(options)
    ensures FindByIdempotencyKey(base, key).Some? <==> Known(InitialKey(options), Entries(base), key)
  {
    hide Trim, Entries, FindByKey, HasKey;
    var k := Trim(key);
    FindByKeySpec(base, k);
    if k == InitialKey(options) {
      assert base[0] in base;
    } else {
      EntriesKeys(base, k);
    }
  }

  lemma StepEntriesFrom(options: Options, d: Disk, s: Submission, crash: CrashPoint, d1: Disk, outcome: Outcome)
    requires Inv(options, d) && StepKeeps(options, d, s, crash, d1, outcome)
    ensures Entries(LogOf(d1)) ==
            Entries(LogOf(d)) +
            if Took(outcome, crash) &&
                !Known(InitialKey(options), Entries(LogOf(d)), s.key) then [Entry(s.key, s.operation)] else []
  {
    BaseEntries(options, d);
    var base, log := Base(options, d), LogOf(d1);
    FoundIffKnown(options, base, s.key);
    hide Inv, ReadRecords, Entries, FileIsReplay, Base, Known, FindByIdempotencyKey, InitialKey;
    NothingAdded(Entries(base));
    match outcome
    case Applied(r) => EntriesSnoc(base, r);
    case Crashed => if crash.AfterManifest? || crash.AfterLine? { EntriesSnoc(base, log[|base|]); }
    case _ =>
  }

  lemma NothingAdded(entries: seq<Entry>)
    ensures entries + [] == entries
  {
  }

  lemma StepEntries(options: Options, d: Disk, s: Submission, crash: CrashPoint)
    requires Inv(options, d) && Benign(options, d, Submit(s, crash))
    ensures var (d1, outcome) := ApplyNowOn(options, d, s, crash);
            Entries(LogOf(d1)) ==
            Entries(LogOf(d)) +
            if Took(outcome, crash) &&
                !Known(InitialKey(options), Entries(LogOf(d)), s.key) then [Entry(s.key, s.operation)] else []
  {
    hide *;
    SubmitKeeps(options, d, s, crash);
    var r := ApplyNowOn(options, d, s, crash);
    StepEntriesFrom(options, d, s, crash, r.0, r.1);
  }

  // After every run, with any keys, crashes and repeated submissions included,
  // the log after its snapshot is the submissions that were taken, less those
  // whose trimmed key the snapshot or an entry kept before them has.
  lemma {:induction false} LogIsKept(options: Options, d: Disk, es: seq<Event>)
    requires Fresh(d) && BenignRun(options, d, es)
    ensures Entries(LogOf(Run(options, d, es))) == Kept(InitialKey(options), Taken(options, d, es))
  {
    if es == [] {
      FreshLog(d);
    } else {
      hide Inv, Benign, ApplyNowOn, ReadRecords, Known, Took, InitialKey, Tears;
      var init, e := es[..|es| - 1], es[|es| - 1];
      LogIsKept(options, d, init);
      RunKeeps(options, d, init);
      var d0, taken := Run(options, d, init), Taken(options, d, init);
      NothingAdded(taken);
      match e
      case Submit(s, crash) =>
        StepEntries(options, d0, s, crash);
        assert Next(options, d0, e) == ApplyNowOn(options, d0, s, crash).0;
        KeepOne(InitialKey(options), taken, Entry(s.key, s.operation));
      case Tamper(document) => LogOfFiles(d0, d0.(document := document));
      case LoseManifest => LogOfFiles(d0, d0.(manifest := None));
    }
  }

  lemma LogOfFiles(a: Disk, b: Disk)
    requires a.files == b.files
    ensures LogOf(a) == LogOf(b)
  {
  }

  lemma KeepOne(initialKey: string, taken: seq<Entry>, entry: Entry)
    ensures Kept(initialKey, taken) + [] == Kept(initialKey, taken)
    ensures Kept(initialKey, taken + [entry]) ==
            Kept(initialKey, taken) + if Known(initialKey, Kept(initialKey, taken), entry.key) then [] else [entry]
  {
    hide Known;
    assert (taken + [entry])[..|taken|] == taken;
  }

  lemma {:induction false} KeptIsFirst(options: Options, entries: seq<Entry>)
    requires forall i | 0 <= i < |entries| :: ProperKey(options, entries[i].key)
    ensures Kept(InitialKey(options), entries) == FirstOccurrences(entries)
  {
    if entries != [] {
      var init, last := entries[..|entries| - 1], entries[|entries| - 1];
      KeptIsFirst(options, init);
      FirstOccurrencesKeys(init, last.key);
      hide InitialKey, Trim, HasKey;
    }
  }

  lemma {:induction false} TakenKeysAreProper(options: Options, d: Disk, es: seq<Event>)
    requires ProperKeys(options, es)
    ensures forall i | 0 <= i < |Taken(options, d, es)| :: ProperKey(options, Taken(options, d, es)[i].key)
  {
    hide ProperKey, ApplyNowOn, Took;
    if es != [] {
      assert forall x | x in es[..|es| - 1] :: x in es;
      assert es[|es| - 1] in es;
      TakenKeysAreProper(options, d, es[..|es| - 1]);
    }
  }

  // Exactly once: with keys that name their own submissions, the log after its
  // snapshot is the submissions taken, keeping only the first of each key.
  lemma LogIsFirstOccurrences(options: Options, d: Disk, es: seq<Event>)
    requires Fresh(d) && BenignRun(options, d, es) && ProperKeys(options, es)
    ensures Entries(LogOf(Run(options, d, es))) == FirstOccurrences(Taken(options, d, es))
  {
    hide *;
    LogIsKept(options, d, es);
    TakenKeysAreProper(options, d, es);
    KeptIsFirst(options, Taken(options, d, es));
  }

  // The operations applied in order; None when one throws.
  function Fold(content: string, entries: seq<Entry>): Option<string> {
    if entries == [] then Some(content)
    else
      match Fold(content, entries[..|entries| - 1])
      case None => None
      case Some(before) => ApplyMarkdownOperation(before, entries[|entries| - 1].operation)
  }

  lemma {:induction false} ReplayFolds(log: seq<Record>)
    requires Chained(log)
    ensures log[0].operation.InitialSnapshot? && Replay(log).Some?
    ensures Fold(EnsureTrailingNewline(log[0].operation.markdown), Entries(log)) == Some(Replay(log).value.content)
  {
    var n := |log| - 1;
    if n == 0 {
      assert log[..0] == [] && Replay([]) == Some(Replayed("", 0));
      assert ApplyMarkdownOperation("", log[0].operation) == Some(EnsureTrailingNewline(log[0].operation.markdown));
    } else {
      hide ApplyMarkdownOperation, EnsureTrailingNewline;
      ReplayFolds(log[..n]);
      var entry := Entry(log[n].idempotencyKey, log[n].operation);
      assert (Entries(log[..n]) + [entry])[..|Entries(log[..n])|] == Entries(log[..n]);
    }
  }

  // The run's last event is a submission that is reported applied.
  predicate EndsApplied(options: Options, d: Disk, es: seq<Event>) {
    && es != [] && es[|es| - 1].Submit?
    && ApplyNowOn(options, Run(options, d, es[..|es| - 1]), es[|es| - 1].s, es[|es| - 1].crash).1.Applied?
  }

  lemma EndsReplayed(options: Options, d: Disk, es: seq<Event>)
    requires Fresh(d) && BenignRun(options, d, es) && EndsApplied(options, d, es)
    ensures Inv(options, Run(options, d, es)) && FileIsReplay(Run(options, d, es))
  {
    hide Inv, FileIsReplay, ApplyNowOn, Linked, Benign, BenignRun;
    var init, e := es[..|es| - 1], es[|es| - 1];
    assert init + [Submit(e.s, e.crash)] == es;
    AppliedIsReplayed(options, d, init, e.s, e.crash);
  }

  // After an applied submission the document is the snapshot with the operations
  // of exactly those entries applied to it, in order.
  lemma DocumentIsFold(options: Options, d: Disk, es: seq<Event>)
    requires Fresh(d) && BenignRun(options, d, es) && EndsApplied(options, d, es)
    ensures var d1 := Run(options, d, es);
            && LogOf(d1) != [] && LogOf(d1)[0].operation.InitialSnapshot?
            && d1.document == Fold(EnsureTrailingNewline(LogOf(d1)[0].operation.markdown),
                                   Kept(InitialKey(options), Taken(options, d, es)))
            && (ProperKeys(options, es) ==>
                  Kept(InitialKey(options), Taken(options, d, es)) == FirstOccurrences(Taken(options, d, es)))
  {
    hide *;
    EndsReplayed(options, d, es);
    LogIsKept(options, d, es);
    InvReplayFolds(options, Run(options, d, es));
    if ProperKeys(options, es) { LogIsFirstOccurrences(options, d, es); }
  }

  lemma InvReplayFolds(options: Options, d: Disk)
    requires Inv(options, d) && FileIsReplay(d)
    ensures LogOf(d) != [] && LogOf(d)[0].operation.InitialSnapshot?
    ensures d.document == Fold(EnsureTrailingNewline(LogOf(d)[0].operation.markdown), Entries(LogOf(d)))
  {
    hide ReadRecords, EnsureTrailingNewline, Chained, Numbered, Lines, ManifestOf, AllWithin, Fold, Entries, Replay;
    var n :| LogInv(options, d, n);
    LogKnown(options, d, n);
    ChainedNotEmpty(LogOf(d));
    ReplayFolds(LogOf(d));
  }

  // -------------------------------------------------------------- segments

  function OpCounts(segments: seq<Segment>): nat {
    if segments == [] then 0 else OpCounts(segments[..|segments| - 1]) + segments[|segments| - 1].opCount
  }

  // Consecutive ranges of opCount sequence numbers that cover 1 to total.
  ghost predicate Ranges(segments: seq<Segment>, total: nat) {
    && OpCounts(segments) == total
    && (segments == [] ==> total == 0)
    && (segments != [] ==> segments[0].firstSequence == 1 && segments[|segments| - 1].lastSequence == total)
    && (forall i | 0 <= i < |segments| ::
          segments[i].opCount > 0 && segments[i].lastSequence == segments[i].firstSequence + segments[i].opCount - 1)
    && (forall i | 0 < i < |segments| :: segments[i].firstSequence == segments[i - 1].lastSequence + 1)
  }

  predicate Fits(options: Options, g: Segment) {
    g.opCount <= MaxOps(options) && (g.bytes <= MaxBytes(options) || g.opCount == 1)
  }

  // What the manifest says about the segments it lists.
  ghost predicate Partition(options: Options, m: Manifest) {
    && m.currentSegment == |m.segments| > 0
    && Ranges(m.segments, m.revision)
    && (forall i | 0 <= i < |m.segments| ::
          && m.segments[i].index == i + 1 && Fits(options, m.segments[i])
          && (m.segments[i].isSealed <==> i + 1 < |m.segments|))
  }

  lemma RangesSnoc(segments: seq<Segment>, total: nat, g: Segment)
    requires Ranges(segments, total)
    requires g.opCount > 0 && g.firstSequence == total + 1 && g.lastSequence == total + g.opCount
    ensures Ranges(segments + [g], total + g.opCount)
  {
    assert (segments + [g])[..|segments|] == segments;
  }

  lemma RangeOf(options: Options, log: seq<Record>, before: seq<Record>, lines: seq<Record>, index: nat, isLast: bool)
    requires Linked(log) && lines != [] && before + lines <= log
    ensures var g := SegmentOf(options, lines, index, isLast);
            g.opCount == |lines| && g.firstSequence == |before| + 1 && g.lastSequence == |before| + |lines|
  {
    assert log[|before|] == lines[0] && log[|before| + |lines| - 1] == lines[|lines| - 1];
  }

  lemma RangesNext(options: Options, log: seq<Record>, before: seq<Record>, lines: seq<Record>, index: nat,
                   isLast: bool,
                   segments: seq<Segment>)
    requires Linked(log) && lines != [] && before + lines <= log && Ranges(segments, |before|)
    ensures Ranges(segments + [SegmentOf(options, lines, index, isLast)], |before + lines|)
  {
    hide Linked, Ranges, SegmentOf;
    RangeOf(options, log, before, lines, index, isLast);
    RangesSnoc(segments, |before|, SegmentOf(options, lines, index, isLast));
  }

  lemma PrefixOf(a: seq<Record>, b: seq<Record>, log: seq<Record>)
    requires a + b <= log
    ensures a <= log
  {
    assert a == (a + b)[..|a|];
  }

  lemma {:induction false} SegmentRanges(options: Options, files: map<nat, seq<Record>>, k: nat, n: nat,
                                         log: seq<Record>)
    requires Numbered(files, n) && k <= n && Linked(log) && Lines(files, k) <= log
    ensures Ranges(SegmentsOf(options, files, k, n), |Lines(files, k)|)
    decreases k
  {
    if k > 0 {
      assert Own(files[k], k);
      PrefixOf(Lines(files, k - 1), files[k], log);
      SegmentRanges(options, files, k - 1, n, log);
      RangesNext(options, log, Lines(files, k - 1), files[k], k, k == n, SegmentsOf(options, files, k - 1, n));
      hide Own, Linked, SegmentOf, Ranges;
    } else {
      assert Ranges([], 0);
    }
  }

  lemma SegmentFits(options: Options, files: map<nat, seq<Record>>, n: nat, index: nat)
    requires Numbered(files, n) && AllWithin(options, files) && 1 <= index <= n
    ensures files[index] != [] && Fits(options, SegmentOf(options, files[index], index, index == n))
  {
    assert Own(files[index], index) && Within(options, files[index]);
  }

  lemma ManifestOfPartitions(options: Options, files: map<nat, seq<Record>>, n: nat)
    requires Numbered(files, n) && AllWithin(options, files) && Lines(files, n) != [] && Linked(Lines(files, n))
    ensures Partition(options, ManifestOf(options, files, n))
  {
    var m := ManifestOf(options, files, n);
    assert forall i | i in files :: files[i] != [] by { assert forall i | i in files :: Own(files[i], i); }
    SegmentsShape(options, files, n, n);
    SegmentRanges(options, files, n, n, Lines(files, n));
    hide Ranges, Fits, AllWithin, Lines, SegmentsOf, Linked;
    forall i | 0 <= i < n
      ensures m.segments[i].index == i + 1 && Fits(options, m.segments[i]) && (m.segments[i].isSealed <==> i + 1 < n)
    {
      SegmentFits(options, files, n, i + 1);
    }
  }

  // In every run a manifest that counts the last line lists segments 1 to currentSegment, whose ranges
  // cut 1 to revision into consecutive pieces of opCount records each; only the
  // last is unsealed, none holds more than the allowed operations, and none
  // more than the allowed bytes unless it holds a single record.
  lemma ManifestPartitions(options: Options, d: Disk, es: seq<Event>)
    requires Fresh(d) && BenignRun(options, d, es)
    ensures var d1 := Run(options, d, es);
            d1.manifest.Some? && !Torn(options, d, es) ==>
                Partition(options, d1.manifest.value) && d1.manifest.value.revision == |LogOf(d1)|
  {
    RunKeeps(options, d, es);
    var d1 := Run(options, d, es);
    if d1.manifest.Some? && !Torn(options, d, es) {
      hide Run, BenignRun, Chained, Partition, Linked, ManifestOf, ReadRecords, Lines, AllWithin;
      var n :| LogInv(options, d1, n);
      LogKnown(options, d1, n);
      ChainedNotEmpty(LogOf(d1));
      ChainedIsLinked(LogOf(d1));
      ManifestHash(options, d1, n);
      ManifestOfPartitions(options, d1.files, n);
    }
  }
}