// server/markdown-operations.js: applying one operation to a document through
// its log, with deduplication and repair of the materialized file.
module MarkdownOperations {
  import opened Text
  import opened Wrappers
  import opened MarkdownDocument
  import opened MarkdownOplog

  // A request with the idempotency key chosen for it.
  datatype Submission = Submission(key: string, operation: Operation, operationId: string)

  datatype Outcome =
    | Applied(record: Record)
    | Deduped(operationId: string, revision: nat)
    | Failed
    | Crashed

  function Draft(s: Submission, beforeHash: Digest, afterHash: Digest): Record {
    Record(0, 0, 0, s.operationId, s.key, s.operation, beforeHash, afterHash)
  }

  // The content that the operation is applied to, and the disk after a repair.
  // None when the replay throws.
  function Repaired(d: Disk, m: Manifest, current: string): Option<(Disk, string)> {
    if ContentHash(current) == m.documentHash then Some((d, current))
    else
      match Replay(ReadRecords(d.files))
      case None => None
      case Some(rebuilt) => Some((d.(document := Some(rebuilt.content)), rebuilt.content))
  }

  // The operation applied to `current` and logged, up to the file write.
  function Commit(options: Options, d: Disk, current: string, s: Submission, crash: CrashPoint): (Disk, Outcome) {
    match ApplyMarkdownOperation(current, s.operation)
    case None => (d, Failed)
    case Some(after) =>
      match AppendRecord(options, d, current, Draft(s, ContentHash(current), ContentHash(after)), crash)
      case Threw(d1) => (d1, Failed)
      case CrashedAt(d1) => (d1, Crashed)
      case Done(d1, record) =>
        if crash.AfterManifest? then (d1, Crashed) else (d1.(document := Some(after)), Applied(record))
  }

  // applyNow
  function ApplyNowOn(options: Options, d: Disk, s: Submission, crash: CrashPoint): (Disk, Outcome) {
    if s.operation == Unsupported("") then (d, Failed)
    else
      var current := if d.document.Some? then d.document.value else options.defaultContent;
      match EnsureLog(options, d, current, crash)
      case Threw(d1) => (d1, Failed)
      case CrashedAt(d1) => (d1, Crashed)
      case Done(d1, m) =>
        if crash.AfterEnsure? then (d1, Crashed)
        else
          match FindByIdempotencyKey(ReadRecords(d1.files), s.key)
          case Some(existing) => (d1, Deduped(existing.operationId, existing.revision))
          case None =>
            match Repaired(d1, m, current)
            case None => (d1, Failed)
            case Some((d2, stable)) =>
              if crash.AfterRepair? then (d2, Crashed) else Commit(options, d2, stable, s, crash)
  }

  class Applier {
    const store: Store

    constructor (store: Store)
      ensures this.store == store
    {
      this.store := store;
    }

    method RepairMaterializedFile() returns (content: Option<string>)
      modifies store
      ensures var rebuilt := Replay(ReadRecords(old(store.files)));
              if rebuilt.None? then content == None && store.State() == old(store.State())
              else content == Some(rebuilt.value.content) && store.State() == old(store.State()).(document := content)
    {
      var rebuilt := store.RebuildMarkdownFromOplog();
      if rebuilt.None? { return None; }
      store.document := Some(rebuilt.value.content);
      return Some(rebuilt.value.content);
    }

    method ApplyNow(s: Submission, crash: CrashPoint) returns (outcome: Outcome)
      modifies store
      ensures (store.State(), outcome) == ApplyNowOn(store.options, old(store.State()), s, crash)
    {
      hide EnsureLog, AppendRecord, ReadRecords, FindByKey, Replay, ApplyMarkdownOperation;
      if s.operation == Unsupported("") { return Failed; }
      var current := if store.document.Some? then store.document.value else store.options.defaultContent;
      var ensured := store.EnsureMarkdownDocumentLog(current, crash);
      if ensured.Threw? { return Failed; }
      if ensured.CrashedAt? { return Crashed; }
      if crash.AfterEnsure? { return Crashed; }
      var records := store.ReadMarkdownOperationRecords();
      var existing := FindByIdempotencyKey(records, s.key);
      if existing.Some? { return Deduped(existing.value.operationId, existing.value.revision); }
      if ContentHash(current) != ensured.value.documentHash {
        var repaired := RepairMaterializedFile();
        if repaired.None? { return Failed; }
        current := repaired.value;
      }
      if crash.AfterRepair? { return Crashed; }
      var after := ApplyMarkdownOperation(current, s.operation);
      if after.None? { return Failed; }
      var appended := store.AppendMarkdownOperationRecord(
        current, Draft(s, ContentHash(current), ContentHash(after.value)), crash);
      if appended.Threw? { return Failed; }
      if appended.CrashedAt? { return Crashed; }
      if crash.AfterManifest? { return Crashed; }
      store.document := after;
      return Applied(appended.value);
    }
  }
}
