// server/markdown-oplog.js: the append-only operation log of one Markdown
// document, kept in numbered segment files beside a manifest, and the recovery
// of the manifest and of the document from the segments.
module MarkdownOplog {
  import opened Text
  import opened Wrappers
  import opened MarkdownDocument

  // SHA-256 (FIPS 180-4) taken as injective: a digest is named by its input.
  datatype Digest = Sha256(input: string)

  function ContentHash(content: string): Digest {
    Sha256(content)
  }

  // One line of a segment file.
  datatype Record = Record(
    sequence: nat,
    revision: nat,
    segmentIndex: nat,
    operationId: string,
    idempotencyKey: string,
    operation: Operation,
    beforeHash: Digest,
    afterHash: Digest)

  datatype Segment = Segment(
    index: nat,
    firstSequence: nat,
    lastSequence: nat,
    opCount: nat,
    bytes: nat,
    isSealed: bool)

  datatype Manifest = Manifest(
    revision: nat,
    documentHash: Digest,
    currentSegment: nat,
    segmentMaxBytes: int,
    segmentMaxOps: int,
    segments: seq<Segment>)

  // What survives a crash: log-<n>.jsonl by number, manifest.json and the
  // Markdown file itself.
  datatype Disk = Disk(files: map<nat, seq<Record>>, manifest: Option<Manifest>, document: Option<string>)

  // The options of one document: jsonBytes is the length of a record's JSON text.
  datatype Options = Options(
    relPath: string,
    initialOperationId: string,
    defaultContent: string,
    segmentMaxBytes: int,
    segmentMaxOps: int,
    jsonBytes: Record -> nat)

  const DEFAULT_SEGMENT_MAX_BYTES := 10 * 1024 * 1024
  const DEFAULT_SEGMENT_MAX_OPS := 10000

  function NormalizePositive(value: int, fallback: nat): int {
    if value > 0 then value else fallback
  }

  function MaxBytes(options: Options): int {
    NormalizePositive(options.segmentMaxBytes, DEFAULT_SEGMENT_MAX_BYTES)
  }

  function MaxOps(options: Options): int {
    NormalizePositive(options.segmentMaxOps, DEFAULT_SEGMENT_MAX_OPS)
  }

  // The record's JSON and its newline.
  function LineBytes(options: Options, record: Record): nat {
    options.jsonBytes(record) + 1
  }

  function FileBytes(options: Options, lines: seq<Record>): nat {
    if lines == [] then 0
    else FileBytes(options, lines[..|lines| - 1]) + LineBytes(options, lines[|lines| - 1])
  }

  // -------------------------------------------------------- reading the log

  ghost predicate IsHighest(s: set<nat>, m: nat) {
    m in s && forall x | x in s :: x <= m
  }

  lemma HighestOfMore(s: set<nat>, m: nat, k: nat)
    requires m in s && IsHighest(s - {m}, k)
    ensures IsHighest(s, if k < m then m else k)
  {
    assert forall x | x in s :: x == m || x in s - {m};
  }

  lemma HighestExists(s: set<nat>)
    requires s != {}
    ensures exists m :: IsHighest(s, m)
  {
    hide IsHighest;
    var m :| m in s;
    if s == {m} {
      OnlyOne(m);
    } else {
      assert s - {m} != {};
      HighestExists(s - {m});
      var k :| IsHighest(s - {m}, k);
      HighestOfMore(s, m, k);
    }
  }

  lemma OnlyOne(m: nat)
    ensures IsHighest({m}, m)
  {
  }

  function Highest(s: set<nat>): (m: nat)
    requires s != {}
    ensures m in s && forall x | x in s :: x <= m
  {
    HighestExists(s);
    var m :| m in s && forall x | x in s :: x <= m;
    m
  }

  // The segment numbers in ascending order.
  function ListSegmentFiles(names: set<nat>): seq<nat> {
    if names == {} then []
    else
      var last := Highest(names);
      ListSegmentFiles(names - {last}) + [last]
  }

  function Indexed(lines: seq<Record>, index: nat): seq<Record> {
    if lines == [] then []
    else
      var r := lines[|lines| - 1];
      Indexed(lines[..|lines| - 1], index) + [if r.segmentIndex == 0 then r.(segmentIndex := index) else r]
  }

  function ReadFiles(files: map<nat, seq<Record>>, listing: seq<nat>): seq<Record>
    requires forall i | i in listing :: i in files
    decreases |listing|
  {
    if listing == [] then []
    else
      var last := listing[|listing| - 1];
      ReadFiles(files, listing[..|listing| - 1]) + Indexed(files[last], last)
  }

  // A stable sort by sequence number.
  function InsertRecord(sorted: seq<Record>, r: Record): seq<Record> {
    if sorted == [] || sorted[|sorted| - 1].sequence <= r.sequence then sorted + [r]
    else InsertRecord(sorted[..|sorted| - 1], r) + [sorted[|sorted| - 1]]
  }

  function SortBySequence(records: seq<Record>): seq<Record> {
    if records == [] then []
    else InsertRecord(SortBySequence(records[..|records| - 1]), records[|records| - 1])
  }

  // The records with one sequence number, in their order.
  function WithSequence(records: seq<Record>, sequence: nat): seq<Record> {
    if records == [] then []
    else
      var last := records[|records| - 1];
      WithSequence(records[..|records| - 1], sequence) + (if last.sequence == sequence then [last] else [])
  }

  ghost predicate InSequence(records: seq<Record>) {
    forall i, j | 0 <= i < j < |records| :: records[i].sequence <= records[j].sequence
  }

  lemma WithSequenceSnoc(records: seq<Record>, r: Record, sequence: nat)
    ensures WithSequence(records + [r], sequence) ==
            WithSequence(records, sequence) + if r.sequence == sequence then [r] else []
  {
    assert (records + [r])[..|records|] == records;
  }

  lemma {:induction false} InsertKeeps(sorted: seq<Record>, r: Record)
    ensures multiset(InsertRecord(sorted, r)) == multiset(sorted) + multiset{r}
  {
    if sorted != [] && sorted[|sorted| - 1].sequence > r.sequence {
      var init, last := sorted[..|sorted| - 1], sorted[|sorted| - 1];
      assert sorted == init + [last];
      InsertKeeps(init, r);
    }
  }

  lemma {:induction false} InsertOrders(sorted: seq<Record>, r: Record)
    requires InSequence(sorted)
    ensures InSequence(InsertRecord(sorted, r))
  {
    if sorted != [] && sorted[|sorted| - 1].sequence > r.sequence {
      var init, last := sorted[..|sorted| - 1], sorted[|sorted| - 1];
      InsertOrders(init, r);
      InsertKeeps(init, r);
      var inserted := InsertRecord(init, r);
      hide InsertRecord;
      forall i | 0 <= i < |inserted| ensures inserted[i].sequence <= last.sequence {
        assert inserted[i] in multiset(inserted);
        assert inserted[i] == r || inserted[i] in init;
      }
    }
  }

  lemma {:induction false} InsertIsStable(sorted: seq<Record>, r: Record, sequence: nat)
    ensures WithSequence(InsertRecord(sorted, r), sequence) == WithSequence(sorted + [r], sequence)
  {
    if sorted != [] && sorted[|sorted| - 1].sequence > r.sequence {
      var init, last := sorted[..|sorted| - 1], sorted[|sorted| - 1];
      InsertIsStable(init, r, sequence);
      var inserted := InsertRecord(init, r);
      assert sorted == init + [last] && InsertRecord(sorted, r) == inserted + [last];
      hide InsertRecord, WithSequence;
      WithSequenceSnoc(inserted, last, sequence);
      WithSequenceSnoc(init, r, sequence);
      WithSequenceSnoc(init, last, sequence);
      WithSequenceSnoc(sorted, r, sequence);
    }
  }

  // The sort orders the records by sequence number, keeps each of them as often
  // as it came, and keeps those with one number in their order.
  lemma {:induction false} SortSpec(records: seq<Record>)
    ensures InSequence(SortBySequence(records)) && multiset(SortBySequence(records)) == multiset(records)
    ensures forall q: nat :: WithSequence(SortBySequence(records), q) == WithSequence(records, q)
  {
    if records != [] {
      var init, last := records[..|records| - 1], records[|records| - 1];
      assert records == init + [last];
      SortSpec(init);
      InsertOrders(SortBySequence(init), last);
      InsertKeeps(SortBySequence(init), last);
      hide InsertRecord, WithSequence;
      forall q: nat ensures WithSequence(SortBySequence(records), q) == WithSequence(records, q) {
        InsertIsStable(SortBySequence(init), last, q);
        WithSequenceSnoc(SortBySequence(init), last, q);
        WithSequenceSnoc(init, last, q);
      }
    }
  }

  // Reading returns every line of every segment file, in the order of their
  // sequence numbers and, for one number, of the files.
  lemma ReadRecordsSpec(files: map<nat, seq<Record>>)
    ensures InSequence(ReadRecords(files))
    ensures (forall i | i in ListSegmentFiles(files.Keys) :: i in files)
    ensures var lines := ReadFiles(files, ListSegmentFiles(files.Keys));
            && multiset(ReadRecords(files)) == multiset(lines)
            && forall q: nat :: WithSequence(ReadRecords(files), q) == WithSequence(lines, q)
  {
    ListingSound(files.Keys);
    SortSpec(ReadFiles(files, ListSegmentFiles(files.Keys)));
  }

  // The listing names each file once, in ascending order.
  lemma {:induction false} ListingAscends(names: set<nat>)
    ensures var listing := ListSegmentFiles(names);
            && (forall i, j | 0 <= i < j < |listing| :: listing[i] < listing[j])
            && forall k :: k in listing <==> k in names
  {
    if names != {} {
      var last := Highest(names);
      ListingAscends(names - {last});
      var init := ListSegmentFiles(names - {last});
      assert forall i | 0 <= i < |init| :: init[i] in init;
    }
  }

  lemma {:induction false} ListingSound(names: set<nat>)
    ensures forall i :: i in ListSegmentFiles(names) <==> i in names
  {
    if names != {} { ListingSound(names - {Highest(names)}); }
  }

  function ReadRecords(files: map<nat, seq<Record>>): seq<Record> {
    ListingSound(files.Keys);
    SortBySequence(ReadFiles(files, ListSegmentFiles(files.Keys)))
  }

  datatype Replayed = Replayed(content: string, revision: nat)

  // Replaying the records from the empty text; None when an operation throws.
  function Replay(records: seq<Record>): Option<Replayed> {
    if records == [] then Some(Replayed("", 0))
    else
      var r := records[|records| - 1];
      match Replay(records[..|records| - 1])
      case None => None
      case Some(before) =>
        match ApplyMarkdownOperation(before.content, r.operation)
        case None => None
        case Some(content) =>
          Some(Replayed(content,
                        if r.revision != 0 then r.revision else if r.sequence != 0 then r.sequence
                            else before.revision + 1))
  }

  function FindByKey(records: seq<Record>, key: string): Option<Record> {
    if records == [] then None
    else if records[0].idempotencyKey == key then Some(records[0])
    else FindByKey(records[1..], key)
  }

  // findMarkdownOperationByIdempotencyKey: the key is trimmed, the stored keys are not.
  function FindByIdempotencyKey(records: seq<Record>, key: string): Option<Record> {
    if Trim(key) == "" then None else FindByKey(records, Trim(key))
  }

  // --------------------------------------------------- creating the manifest

  function InitialKey(options: Options): string {
    "initial:" + options.relPath
  }

  function InitialRecord(options: Options, content: string): Record {
    Record(1, 1, 1, options.initialOperationId, InitialKey(options), InitialSnapshot(content),
           ContentHash(""), ContentHash(content))
  }

  function InitialManifest(options: Options, content: string): Manifest {
    Manifest(1, ContentHash(content), 1, MaxBytes(options), MaxOps(options),
             [Segment(1, 1, 1, 1, LineBytes(options, InitialRecord(options, content)), false)])
  }

  function RecordsOfSegment(records: seq<Record>, index: nat): seq<Record> {
    if records == [] then []
    else
      var r := records[|records| - 1];
      RecordsOfSegment(records[..|records| - 1], index) + (if r.segmentIndex == index then [r] else [])
  }

  function RebuiltSegment(options: Options, files: map<nat, seq<Record>>, records: seq<Record>, index: nat,
                          isLast: bool): Segment
    requires index in files
  {
    var own := RecordsOfSegment(records, index);
    Segment(index,
            if own == [] then 0 else own[0].sequence,
            if own == [] then 0 else own[|own| - 1].sequence,
            |own|,
            FileBytes(options, files[index]),
            !isLast && own != [])
  }

  function RebuiltSegments(options: Options, files: map<nat, seq<Record>>, records: seq<Record>, listing: seq<nat>,
                           last: nat): seq<Segment>
    requires forall i | i in listing :: i in files
    decreases |listing|
  {
    if listing == [] then []
    else
      var i := listing[|listing| - 1];
      RebuiltSegments(options, files, records, listing[..|listing| - 1], last) +
      [RebuiltSegment(options, files, records, i, i == last)]
  }

  // The manifest that is built when none can be read but records can.
  function RebuiltManifest(options: Options, files: map<nat, seq<Record>>): Option<Manifest> {
    ListingSound(files.Keys);
    var records := ReadRecords(files);
    match Replay(records)
    case None => None
    case Some(rebuilt) =>
      var last := if files.Keys == {} then 1 else Highest(files.Keys);
      Some(Manifest(rebuilt.revision, ContentHash(rebuilt.content), last, MaxBytes(options), MaxOps(options),
                    RebuiltSegments(options, files, records, ListSegmentFiles(files.Keys), last)))
  }

  // ---------------------------------------------------------------- append

  function FindSegment(segments: seq<Segment>, index: nat): (i: nat)
    ensures i <= |segments|
  {
    if segments == [] || segments[0].index == index then 0 else 1 + FindSegment(segments[1..], index)
  }

  function NewSegment(index: nat, sequence: nat): Segment {
    Segment(index, sequence, 0, 0, 0, false)
  }

  function OrElse(value: int, other: int): int {
    if value != 0 then value else other
  }

  function IsFull(options: Options, manifest: Manifest, segment: Segment, draft: Record): bool {
    || segment.opCount >= NormalizePositive(OrElse(manifest.segmentMaxOps, options.segmentMaxOps),
                                            DEFAULT_SEGMENT_MAX_OPS)
    || (segment.bytes > 0 &&
        segment.bytes + LineBytes(options, draft) >
        NormalizePositive(OrElse(manifest.segmentMaxBytes, options.segmentMaxBytes), DEFAULT_SEGMENT_MAX_BYTES))
  }

  function Counted(options: Options, segment: Segment, record: Record): Segment {
    segment.(opCount := segment.opCount + 1,
             bytes := segment.bytes + LineBytes(options, record),
             lastSequence := record.sequence,
             firstSequence := if segment.firstSequence == 0 then record.sequence else segment.firstSequence)
  }

  // The record as it is written, and the manifest written after it.
  function AppendPlan(options: Options, manifest: Manifest, draft: Record): (Record, Manifest) {
    var sequence := manifest.revision + 1;
    var index := if manifest.currentSegment > 0 then manifest.currentSegment else 1;
    var at := FindSegment(manifest.segments, index);
    var segments := if at == |manifest.segments| then manifest.segments + [NewSegment(index, sequence)]
        else manifest.segments;
    var record := draft.(sequence := sequence, revision := sequence, segmentIndex := index);
    if IsFull(options, manifest, segments[at], record) then
      var moved := record.(segmentIndex := index + 1);
      var rolled := segments[at := segments[at].(isSealed := true)];
      (moved, AfterAppend(options, manifest, moved,
                          rolled + [Counted(options, NewSegment(index + 1, sequence), moved)]))
    else
      (record, AfterAppend(options, manifest, record, segments[at := Counted(options, segments[at], record)]))
  }

  function AfterAppend(options: Options, manifest: Manifest, record: Record, segments: seq<Segment>): Manifest {
    Manifest(record.sequence, record.afterHash, record.segmentIndex,
             NormalizePositive(OrElse(manifest.segmentMaxBytes, options.segmentMaxBytes), DEFAULT_SEGMENT_MAX_BYTES),
             NormalizePositive(OrElse(manifest.segmentMaxOps, options.segmentMaxOps), DEFAULT_SEGMENT_MAX_OPS),
             segments)
  }

  function AppendLine(files: map<nat, seq<Record>>, record: Record): map<nat, seq<Record>> {
    files[record.segmentIndex := (if record.segmentIndex in files then files[record.segmentIndex] else []) + [record]]
  }

  // ------------------------------------------------ the log as disk steps

  // Where a crash may strike between two writes to the disk. One that is not
  // reached has no effect.
  datatype CrashPoint = AfterLogCreated | AfterEnsure | AfterRepair | AfterLine | AfterManifest | NoCrash

  datatype Step<T> = Done(disk: Disk, value: T) | Threw(disk: Disk) | CrashedAt(disk: Disk)

  // ensureMarkdownDocumentLog
  function EnsureLog(options: Options, d: Disk, content: string, crash: CrashPoint): (r: Step<Manifest>)
    ensures r.Done? ==> r.disk.manifest == Some(r.value)
  {
    if d.manifest.Some? then Done(d, d.manifest.value)
    else if ReadRecords(d.files) != [] then
      match RebuiltManifest(options, d.files)
      case None => Threw(d)
      case Some(m) => Done(d.(manifest := Some(m)), m)
    else
      var created := d.(files := d.files[1 := [InitialRecord(options, content)]]);
      if crash.AfterLogCreated? then CrashedAt(created)
      else
        var m := InitialManifest(options, content);
        Done(created.(manifest := Some(m)), m)
  }

  // appendMarkdownOperationRecord
  function AppendRecord(options: Options, d: Disk, content: string, draft: Record, crash: CrashPoint): Step<Record> {
    match EnsureLog(options, d, content, NoCrash)
    case Threw(d1) => Threw(d1)
    case CrashedAt(d1) => CrashedAt(d1)
    case Done(d1, m) =>
      var (record, next) := AppendPlan(options, m, draft);
      var d2 := d1.(files := AppendLine(d1.files, record));
      if crash.AfterLine? then CrashedAt(d2) else Done(d2.(manifest := Some(next)), record)
  }

  // ------------------------------------------------------ the log on a disk

  class Store {
    var files: map<nat, seq<Record>>
    var manifest: Option<Manifest>
    var document: Option<string>
    const options: Options

    function State(): Disk
      reads this
    {
      Disk(files, manifest, document)
    }

    constructor (options: Options, document: Option<string>)
      ensures this.options == options && State() == Disk(map[], None, document)
    {
      this.options := options;
      this.document := document;
      files, manifest := map[], None;
    }

    method ReadMarkdownOperationRecords() returns (records: seq<Record>)
      ensures records == ReadRecords(files)
    {
      ListingSound(files.Keys);
      var listing := ListSegmentFiles(files.Keys);
      records := [];
      for i := 0 to |listing|
        invariant records == ReadFiles(files, listing[..i])
      {
        assert listing[i] in listing;
        var lines := files[listing[i]];
        ghost var before := records;
        for j := 0 to |lines|
          invariant records == before + Indexed(lines[..j], listing[i])
        {
          var record := lines[j];
          assert lines[..j + 1][..j] == lines[..j];
          records := records + [if record.segmentIndex == 0 then record.(segmentIndex := listing[i]) else record];
        }
        assert lines[..|lines|] == lines && listing[..i + 1][..i] == listing[..i];
      }
      assert listing[..|listing|] == listing;
      records := SortBySequence(records);
    }

    method RebuildMarkdownFromOplog() returns (rebuilt: Option<Replayed>)
      ensures rebuilt == Replay(ReadRecords(files))
    {
      hide ApplyMarkdownOperation, ReadRecords;
      var records := ReadMarkdownOperationRecords();
      var content: string, revision: nat := "", 0;
      for i := 0 to |records|
        invariant Replay(records[..i]) == Some(Replayed(content, revision))
      {
        assert records[..i + 1][..i] == records[..i];
        var next := ApplyMarkdownOperation(content, records[i].operation);
        if next.None? {
          ReplayStuck(records, i + 1);
          return None;
        }
        content := next.value;
        revision := if records[i].revision != 0 then records[i].revision
                    else if records[i].sequence != 0 then records[i].sequence else revision + 1;
      }
      assert records[..|records|] == records;
      rebuilt := Some(Replayed(content, revision));
    }

    method EnsureMarkdownDocumentLog(content: string, crash: CrashPoint) returns (r: Step<Manifest>)
      modifies this
      ensures r == EnsureLog(options, old(State()), content, crash) && State() == r.disk
    {
      if manifest.Some? { return Done(State(), manifest.value); }
      var records := ReadMarkdownOperationRecords();
      if records != [] {
        var rebuilt := RebuildMarkdownFromOplog();
        if rebuilt.None? { return Threw(State()); }
        ListingSound(files.Keys);
        var listing := ListSegmentFiles(files.Keys);
        var last := if files.Keys == {} then 1 else Highest(files.Keys);
        var segments: seq<Segment> := [];
        for i := 0 to |listing|
          invariant segments == RebuiltSegments(options, files, records, listing[..i], last)
        {
          assert listing[i] in listing && listing[..i + 1][..i] == listing[..i];
          segments := segments + [RebuiltSegment(options, files, records, listing[i], listing[i] == last)];
        }
        assert listing[..|listing|] == listing;
        var m := Manifest(rebuilt.value.revision, ContentHash(rebuilt.value.content), last,
                          MaxBytes(options), MaxOps(options), segments);
        manifest := Some(m);
        return Done(State(), m);
      }
      files := files[1 := [InitialRecord(options, content)]];
      if crash.AfterLogCreated? { return CrashedAt(State()); }
      manifest := Some(InitialManifest(options, content));
      return Done(State(), InitialManifest(options, content));
    }

    method AppendMarkdownOperationRecord(content: string, draft: Record, crash: CrashPoint) returns (r: Step<Record>)
      modifies this
      ensures r == AppendRecord(options, old(State()), content, draft, crash) && State() == r.disk
    {
      hide EnsureLog, IsFull, Counted, AppendLine, FindSegment;
      var ensured := EnsureMarkdownDocumentLog(content, NoCrash);
      if ensured.Threw? { return Threw(State()); }
      if ensured.CrashedAt? { return CrashedAt(State()); }
      var m := ensured.value;
      var sequence := m.revision + 1;
      var segmentIndex := if m.currentSegment > 0 then m.currentSegment else 1;
      var segments := m.segments;
      var at := FindSegment(segments, segmentIndex);
      if at == |segments| {
        segments := segments + [NewSegment(segmentIndex, sequence)];
      }
      var record := draft.(sequence := sequence, revision := sequence, segmentIndex := segmentIndex);
      if IsFull(options, m, segments[at], record) {
        segments := segments[at := segments[at].(isSealed := true)];
        segmentIndex := segmentIndex + 1;
        at := |segments|;
        segments := segments + [NewSegment(segmentIndex, sequence)];
        record := record.(segmentIndex := segmentIndex);
      }
      files := AppendLine(files, record);
      if crash.AfterLine? { return CrashedAt(State()); }
      assert at > 0 ==> (segments[..at] + [segments[at]])[at := Counted(options, segments[at], record)] ==
                        segments[..at] + [Counted(options, segments[at], record)];
      assert at + 1 == |segments| ==> segments == segments[..at] + [segments[at]];
      segments := segments[at := Counted(options, segments[at], record)];
      manifest := Some(AfterAppend(options, m, record, segments));
      return Done(State(), record);
    }
  }

  lemma {:induction false} ReplayStuck(records: seq<Record>, i: nat)
    requires i <= |records| && Replay(records[..i]) == None
    ensures Replay(records) == None
    decreases |records|
  {
    hide ApplyMarkdownOperation;
    if i == |records| {
      assert records[..i] == records;
    } else {
      var init := records[..|records| - 1];
      assert init[..i] == records[..i];
      ReplayStuck(init, i);
    }
  }
}
