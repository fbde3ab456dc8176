# Verified models of the server's stateful core

This project models, in Dafny 4.11, the parts of the server that keep state over
time, and proves what they keep: the Markdown operation log, the change sessions
of a Knowledge Space with its diff, import, export and consensus assignment, the
notify relay, the configuration parser, the reload coalescer and the merge of
conversation references. `dafny verify dfyconfig.toml` checks all of it.

| component | files |
|---|---|
| Text primitives (trimming, lines, the newline normalizer) | `Text.dfy`, `Wrappers.dfy` |
| Markdown transforms and what they keep | `MarkdownDocument.dfy`, `MarkdownBullets.dfy`, `MarkdownRewrites.dfy`, `MarkdownAppends.dfy`, `MarkdownCleanup.dfy`, `MarkdownCleanupText.dfy` |
| The operation log, its recovery, its runs and where their guarantees end | `MarkdownOplog.dfy`, `MarkdownOperations.dfy`, `MarkdownRecovery.dfy`, `MarkdownRuns.dfy`, `MarkdownBoundaries.dfy` |
| The promise queue per document | `OperationQueue.dfy` |
| Change sessions and version histories | `KnowledgeSessions.dfy`, `KnowledgeHistory.dfy` |
| The diff | `KnowledgeDiff.dfy` |
| Splitting, export and import of a consensus | `KnowledgeMarkdown.dfy`, `KnowledgeMarkdownRoundTrip.dfy`, `KnowledgeMarkdownWeights.dfy`, `KnowledgeImport.dfy`, `KnowledgeImportRoundTrip.dfy`, `KnowledgeImportLimits.dfy`, `KnowledgeImportDrafts.dfy` |
| Consensus assignment | `KnowledgeConsensus.dfy`, `KnowledgeConsensusRuns.dfy` |
| Relay commands and acknowledgements | `NotifyRelay.dfy`, `NotifyRelayRuns.dfy` |
| Configuration parser | `ConfigYaml.dfy`, `ConfigYamlRoundTrip.dfy`, `ConfigYamlValues.dfy` |
| Reload coalescer | `RealtimeReload.dfy` |
| Conversation references | `ConversationReferences.dfy` |

How it is built. An object that the source updates in place is a class whose
methods are proved equal to a function of the old state; protocols with
asynchronous handlers are classes with one method for each piece of code between
two awaits. Runs are sequences of events folded over those functions, and the
theorems speak of every run. A disk is the segment files, an optional manifest
and an optional document; each write is a step, and a crash may fall between any
two of them.

What the proofs found. Some promises hold only under a condition. Each line names
the lemma that gives the condition for all inputs and the lemmas that show inputs
which fail it.

- A submission and its retry are logged exactly once exactly when the key is
  trimmed, not empty and not `initial:` with the document's path
  (`MarkdownBoundaries.ExactlyOnceIffProper`). The key ` k` is applied twice
  (`MarkdownBoundaries.SpacedKeyIsRepeated`); the key `initial:MEMORY.md` is
  answered from the snapshot and its operation is lost
  (`MarkdownBoundaries.MemoryKeyIsLost`). What the log holds for any keys is
  `MarkdownRuns.LogIsKept`.
- The first manifest holds the hash of the raw text while replay normalizes it, so
  they agree exactly on normalized text
  (`MarkdownBoundaries.CreationHashIffNormalized`), and not on `a`
  (`MarkdownBoundaries.UnfinishedLineDiffers`). On any text the first operation
  makes the file the replay exactly when it does the same to the normalized text
  (`MarkdownBoundaries.FirstApplyIsReplayIff`). For an operation that adds a
  section, that is when the text is not empty and the white space at its end is
  newlines (`MarkdownBoundaries.FirstSectionIsReplayIff`), which the text `a ` and
  the empty text fail (`MarkdownBoundaries.FirstSectionCanDiffer`).
- Of two replacements of one section the last one wins exactly when the first body
  has no heading and the heading after the section is still one once the end of
  the text is trimmed (`MarkdownRewrites.ReplaceOverwritesIff`). A body with a
  heading fails it (`MarkdownRewrites.HeadingInBodyStays`), and so does a text that
  ends in a `#` and a space (`MarkdownRewrites.BareHeadingIsTaken`).
- A crash between a log line and the manifest that counts it breaks the log's
  invariant while the old manifest survives, and losing that manifest heals it
  (`MarkdownBoundaries.LineCrashNeedsManifestLoss`); runs with such a crash and
  such a loss before the next submission are among those of the theorems.
- A publish keeps the chain of versions exactly when no two of its edits name
  one document (`KnowledgeHistory.PublishChainsIff`); the code accepts such drafts
  (`KnowledgeHistory.DuplicateEditsPublished`).
- An import into a consensus that exists drafts one exactly when two sections are
  written to one document that the space has, or one to the root
  (`KnowledgeImportDrafts.DraftEditsApartIff`). Two sections meet so when both
  titles are normalized to a title that a child has
  (`KnowledgeImportDrafts.RepeatedTitleIsEditedTwice`), or when one title is a
  child's and the id made from the other is that child's
  (`KnowledgeImportDrafts.RenamedChildIsEditedTwice`), or when no child has their
  titles and the id made from them is taken. Two sections with one new title do
  not (`KnowledgeImportDrafts.RepeatedNewTitleIsNot`). Such an import goes through
  review all the same, and breaks a chain exactly then
  (`KnowledgeImportDrafts.ImportThroughReviewIff`).
- An exported consensus imports back exactly when no body opens a heading outside
  a code fence, every body but the last closes its fences, no two section titles
  are normalized to one, and no section is titled root
  (`KnowledgeImportRoundTrip.ExportImportsBackIff`). Each of the four has an input
  that fails it (`KnowledgeImportLimits.HeadingInBodySplits`, `OpenFenceSwallows`,
  `EqualTitlesMerge`, `RootTitleTakesRoot`).
- A second consensus assignment is idle exactly when every id chosen holds text
  and untitled roots agree with the first root of their id
  (`KnowledgeConsensusRuns.SecondRunIsIdleIff`, `BlankIdIsReplaced`,
  `UntitledRootIsRenamed`).
- Nothing becomes pending after a drain, however the run goes on, exactly when no
  call was between its lookup and its registration as the drain began
  (`NotifyRelayRuns.StaysEmptyIff`); only such calls can
  (`NotifyRelayRuns.PendingAfterDrain`), and one does
  (`NotifyRelayRuns.RegistersAfterDrain`).
- The configuration parser returns the tree it is given exactly when no scalar
  item looks like an entry and no item of several entries starts with an empty
  mapping (`ConfigYamlRoundTrip.RoundTripsIff`, `ColonItemIsSplit`,
  `EmptyFirstEntrySwallows`), and so for values with quoted strings
  (`ConfigYamlValues.ValueReadsBackIff`). A block value under an item's first key
  is read correctly.
- Normalizing a stored reference list changes nothing exactly when none of its
  references has a parent message without a source kind
  (`ConversationReferences.StoredListIsStableIff`, `StoredListCanChange`).

Standing assumptions. SHA-256 (FIPS 180-4) and the ids made by hashing are
injective. The length of a record's JSON text is a given function. Session ids,
command ids and connections are new when made. In a run a Markdown log is created
from normalized text, and nothing is submitted between a crash that parts a line
from its manifest and the loss of that manifest. The segment limits never change
during a run: a manifest that survives keeps its own
(server/markdown-oplog.js:232-233) where a rebuilt one takes the current options
(server/markdown-oplog.js:170-175).

## Model

The theorems come first; the methods follow, each proved equal to the function
that the theorems speak of.

| member | source | states |
|---|---|---|
| `Text.EnsureTrailingNewlineIdempotent` | server/markdown-document.js:59-61 | The normalizer that ends every transform is a projection, on every text |
| `Text.NormalizerKeepsNonBlank` | server/markdown-document.js:55-61 | It changes no line that holds text, but for the white space after the last one |
| `MarkdownDocument.FindHeadingSpec` | server/markdown-document.js:63-70 | The section's heading is the first line whose level-2 title is one of its aliases, or there is none |
| `MarkdownBullets.UpsertTouchesOneSection` | server/markdown-document.js:80-98 | An upsert keeps every line outside the section, and inside it leaves the new bullet first and then the live bullets in order, without older copies, cut at the maximum |
| `MarkdownBullets.UpsertsKeepMostRecent` | server/markdown-document.js:80-98 | After any run of upserts under one heading the section is the maxItems most recently upserted distinct bullets, newest first, after the text that was there |
| `MarkdownBullets.UpsertsIntoSection` | server/markdown-document.js:80-98 | After any run of upserts under a heading the text has, its section is the most recently upserted distinct bullets, newest first, then the live bullets it had less those, cut at maxItems; the rest of the text stays |
| `MarkdownBullets.RecentSpec` | server/markdown-document.js:80-98 | The list that run is compared with holds each bullet once, ordered by its last occurrence |
| `MarkdownRewrites.ReplaceText` | server/markdown-document.js:100-120 | Replacing a section changes no line before its heading or from the next heading on, and drops a heading line given with the text |
| `MarkdownRewrites.ReplaceOverwritesIff` | server/markdown-document.js:100-120 | On every text, of two replacements of one section the last wins exactly when the first body leaves the section ending where it does: it has no heading, and the heading after it is still one once the end of the text is trimmed |
| `MarkdownRewrites.HeadingInBodyStays` | server/markdown-document.js:63-78 | The heading in a body `x`, `# y` stays behind when the section is replaced again |
| `MarkdownRewrites.BareHeadingIsTaken` | server/markdown-document.js:59-78 | In a text that ends in `# ` the trim takes the space, and the next replacement takes the line |
| `MarkdownRewrites.FrontmatterText` | server/markdown-document.js:131-148 | Setting a key changes its line in the front matter block, or adds it there, and no other line; a text without a closed block gets one |
| `MarkdownRewrites.FrontmatterLastWriteWins` | server/markdown-document.js:131-148 | Of two writes to one key the last wins, on every text |
| `MarkdownCleanup.CleanupIdempotent` | server/markdown-document.js:155-197 | Cleaning a cleaned text changes nothing, on every text |
| `MarkdownCleanup.CleanupKeepsSections` | server/markdown-document.js:155-197 | Cleanup keeps the introduction and the set of headings, leaves each heading once whatever its case, and leaves under it all lines of its sections in order but for dropped bullets |
| `MarkdownCleanupText.CleanedText` | server/markdown-document.js:155-197 | The cleaned text, read again, has the introduction and headings of the text, each heading once, and under it all lines of its sections in order but for dropped bullets, blank lines and white space at line ends aside |
| `MarkdownCleanup.DropRepeatsSpec` | server/markdown-document.js:181-196 | Under one heading every line that is no bullet stays, and every bullet that is no placeholder stays exactly once |
| `MarkdownCleanup.CleanupView` | server/markdown-document.js:155-197 | The cleaned text reads as those lines, up to blank lines and the trim at the end |
| `MarkdownOplog.SortSpec` | server/markdown-oplog.js:93-94 | The sort orders records by sequence number, keeps each as often as it came, and keeps those with one number in their order |
| `MarkdownOplog.ListingAscends` | server/markdown-oplog.js:72-81 | Each segment file is listed once, in ascending order of its number |
| `MarkdownOplog.ReadRecordsSpec` | server/markdown-oplog.js:83-94 | Reading returns every line of every segment file, in sequence order |
| `MarkdownRecovery.ReadsLines` | server/markdown-oplog.js:83-94 | Reading all segments gives the lines in the order they were written |
| `MarkdownRecovery.AppendKeeps` | server/markdown-oplog.js:227-300 | An append keeps the log's invariant: segment files 1 to n, linked records whose hashes are those of the replay, and a manifest that says what the files hold |
| `MarkdownRecovery.RebuildsManifest` | server/markdown-oplog.js:149-181 | The manifest rebuilt from the segment files equals the one they were written with |
| `MarkdownRecovery.ManifestLossIsHarmless` | server/markdown-oplog.js:140-181 | After losing the manifest the next call restores exactly the lost one |
| `MarkdownRuns.SubmitKeeps` | server/markdown-operations.js:122-289 | What one submission does to the log of any sound disk, for every outcome and every crash |
| `MarkdownRuns.AppliedIsReplayed` | server/markdown-operations.js:122-196 | In every run of submissions, edits of the file, manifest losses and crashes anywhere, where a manifest that a crash left behind its last line is lost before the next submission, the log is linked by hashes, and after an applied operation the file is the replay of the whole log, under the manifest's hash and revision |
| `MarkdownRuns.LossBeforeSubmit` | server/markdown-oplog.js:149-181 | In every such run, losing the manifest before a submission changes neither its answer nor the disk after it; one without an operation type fails on both and changes neither |
| `MarkdownRuns.LogIsKept` | server/markdown-operations.js:143-158 | After every such run, with any keys, the log after its snapshot is the submissions taken, less those whose trimmed key the snapshot or an entry kept before them has |
| `MarkdownRuns.LogIsFirstOccurrences` | server/markdown-operations.js:143-158 | Exactly once: with keys that are trimmed, not empty and not the snapshot's, that is the first submission of each key |
| `MarkdownRuns.DocumentIsFold` | server/markdown-operations.js:122-289 | After an applied submission the document is the snapshot with the operations of exactly those entries applied, for any keys |
| `MarkdownRuns.ManifestPartitions` | server/markdown-oplog.js:227-300 | In every such run the segments are numbered 1 to the current one, their ranges cut 1 to revision into consecutive pieces of opCount records, and none exceeds the limits unless it holds one record |
| `MarkdownBoundaries.ExactlyOnceIffProper` | server/markdown-oplog.js:216-221 | A submission and its retry add exactly one entry if and only if the key is trimmed, not empty and not the snapshot's |
| `MarkdownBoundaries.AnsweredIffKnown` | server/markdown-operations.js:143-158 | On every sound disk a supported operation is answered from the log exactly when its key is known there, and applied otherwise |
| `MarkdownBoundaries.InitialKeyIsLost` | server/markdown-operations.js:143-158 | A submission whose trimmed key is the snapshot's is answered as a duplicate and its operation is lost |
| `MarkdownBoundaries.MemoryKeyIsLost` | server/markdown-operations.js:48-54 | For the memory file that key is `initial:MEMORY.md` |
| `MarkdownBoundaries.RetryDedupedIffTrimmed` | server/markdown-oplog.js:216-221 | A retry of an applied submission is recognised exactly when its key is trimmed and not empty |
| `MarkdownBoundaries.SpacedKeyIsRepeated` | server/markdown-oplog.js:216-221 | The key with a space before it is applied again by its retry |
| `MarkdownBoundaries.CreationHashIffNormalized` | server/markdown-oplog.js:115-138 | A new manifest's hash is the hash of the replay exactly when the text is normalized |
| `MarkdownBoundaries.UnfinishedLineDiffers` | server/markdown-oplog.js:115-138 | For the text `a` without a newline the two hashes differ |
| `MarkdownBoundaries.FirstApplyIsReplayIff` | server/markdown-operations.js:160-196 | On a log just created from any text, the file is the replay after the first operation exactly when the operation does the same to the text and to its normalized form |
| `MarkdownAppends.AppendAgreesIff` | server/markdown-document.js:80-120 | A section appended to a text and to its normalized form gives one text exactly when the text is not empty and the white space at its end is newlines |
| `MarkdownBoundaries.FirstSectionIsReplayIff` | server/markdown-operations.js:160-196 | On a log just created, when the first operation adds a section, the file is the replay after it exactly when the text is not empty and the white space at its end is newlines |
| `MarkdownBoundaries.FirstSectionCanDiffer` | server/markdown-document.js:80-88 | A bullet added to `a ` or to the empty text leaves a file that is not the replay |
| `MarkdownBoundaries.LineCrashNeedsManifestLoss` | server/markdown-oplog.js:283-298 | After a crash between line and manifest the next record repeats a sequence number while the old manifest survives, and the invariant is back once it is gone |
| `OperationQueue.OneApplyPerDocument` | server/markdown-operations.js:291-314 | In every interleaving at most one apply per document is in flight, one starts only when all earlier ones on its document are over, failed or not, and they start in submission order |
| `OperationQueue.NewChainOnlyWhenIdle` | server/markdown-operations.js:295-312 | A new chain starts exactly when nothing on the key is left to do; otherwise the submission chains after the latest one |
| `OperationQueue.NothingStranded` | server/markdown-operations.js:295-312 | While a submission has not settled some task on its key can take a step |
| `KnowledgeDiff.LcsIsBound` | server/knowledge-space.js:1604-1611 | No common subsequence of two suffixes is longer than the table entry |
| `KnowledgeDiff.SameLinesAreCommon` | server/knowledge-space.js:1601-1629 | The lines of the same rows are a common subsequence of both columns |
| `KnowledgeDiff.DiffLines` | server/knowledge-space.js:1612-1627 | The walk ends and its rows rebuild both texts, with as many same rows as the table says |
| `KnowledgeDiff.RenderKnowledgeDiff` | server/knowledge-space.js:1601-1629 | Without added rows the diff is the first text, without removed rows the second, and no common subsequence has more lines than the same rows |
| `KnowledgeHistory.VersionIdsNeverRecur` | server/knowledge-space.js:735-737 | In every run no version id is used twice, even when a text comes back |
| `KnowledgeHistory.HistoriesAreChains` | server/knowledge-space.js:1798-1842 | In every run whose sessions edit distinct documents, versions are numbered from 1 and each is based on the one before it |
| `KnowledgeHistory.PublishChainsIff` | server/knowledge-space.js:1798-1842 | A publish keeps the chains exactly when no two of its edits name one document |
| `KnowledgeHistory.DuplicateEditsPublished` | server/knowledge-space.js:1575-1599 | A draft that names an existing document twice is accepted, reviewed and published, and breaks the chain |
| `KnowledgeHistory.PublishedIffCurrent` | server/knowledge-space.js:1710-1736 | A session in preview is published exactly when all its bases are current; otherwise no document or version changes |
| `KnowledgeHistory.StaleNeverPublished` | server/knowledge-space.js:2047-2072 | Once a session is stale no run ever publishes it |
| `KnowledgeHistory.RivalsNotBothPublished` | server/knowledge-space.js:1710-1736 | Of two sessions drafted against one version of a document at most one is ever published |
| `KnowledgeHistory.PublishedNeverChanges` | server/knowledge-space.js:1670-1698 | A published session never changes again |
| `KnowledgeMarkdown.LinesArePartitioned` | server/knowledge-space.js:307-349 | Every line goes to exactly one of the root and the sections, and each holds its lines in order |
| `KnowledgeMarkdownRoundTrip.CurrentGets` | server/knowledge-space.js:315-342 | A part gets all lines up to the next level-2 heading outside a code fence |
| `KnowledgeMarkdown.HeadingIsNoFence` | server/knowledge-space.js:315-335 | A heading line is never a fence, so the toggles beside `continue` never act |
| `KnowledgeMarkdownRoundTrip.StripsMarked` | server/knowledge-space.js:351-356 | Stripping the heading of a part leaves exactly the rest, trimmed |
| `KnowledgeMarkdownRoundTrip.ExportSplits` | server/knowledge-space.js:1202-1218 | The exported text splits into the headings and bodies with one blank line between |
| `KnowledgeMarkdownRoundTrip.ExportParsesBackIff` | server/knowledge-space.js:307-366 | Splitting an exported consensus and stripping the parts returns its root title, root body, section titles and bodies in order exactly when every body is sealed |
| `KnowledgeMarkdownWeights.FoldWeight` | server/knowledge-space.js:307-349 | Splitting neither drops a line that holds text nor makes one |
| `KnowledgeMarkdownWeights.StrippedPart` | server/knowledge-space.js:351-356 | Whatever its heading line, stripping a titled part leaves exactly the lines after it, trimmed |
| `KnowledgeImportRoundTrip.ImportedConsensus` | server/knowledge-space.js:1041-1125 | After a fresh import the space holds nothing that can be exported if a section was written to the root document, and else the last section of each document |
| `KnowledgeImportRoundTrip.ChildrenAreLinked` | server/knowledge-space.js:1168-1180 | After a fresh import a document is a child of the root exactly when a hierarchy link leads to it |
| `KnowledgeImportRoundTrip.ExportImportsBackIff` | server/knowledge-space.js:979-1125 | Importing an export into a space that lacks the consensus gives the same consensus exactly when every body is sealed, no two section titles are normalized to one, and no section is titled root |
| `KnowledgeImportLimits.EqualTitlesMerge` | server/knowledge-space.js:894-902 | Two sections titled A become one document with the second text |
| `KnowledgeImportLimits.RootTitleTakesRoot` | server/knowledge-space.js:894-902 | A section titled root takes the id of the root document, and the consensus cannot be exported |
| `KnowledgeImportLimits.HeadingInBodySplits` | server/knowledge-space.js:315-335 | A level-2 heading inside a body opens a section of its own |
| `KnowledgeImportLimits.OpenFenceSwallows` | server/knowledge-space.js:315-342 | A fence that a body leaves open swallows the section after it |
| `KnowledgeImportDrafts.DraftEditsApartIff` | server/knowledge-space.js:998-1027 | Importing a text into a consensus that has its root drafts at most one edit of each document exactly when no two sections are written to one document the space has, and none to the root; new sections may repeat |
| `KnowledgeImportDrafts.ImportedDraftChainsIff` | server/knowledge-space.js:1798-1842 | Whenever such a draft is published, the chains of versions are kept exactly under that condition on the space it was drafted from |
| `KnowledgeImportDrafts.ImportThroughReviewIff` | server/knowledge-space.js:998-1027 | An import that is drafted, reviewed and published at once always goes through, and keeps the chains exactly then |
| `KnowledgeImportDrafts.KnownSectionsApartIff` | server/knowledge-space.js:894-902 | Where every section has its child, the condition is that no two titles are normalized to one |
| `KnowledgeImportDrafts.RepeatedTitleIsEditedTwice` | server/knowledge-space.js:894-902 | Two sections with the title of a child edit it twice |
| `KnowledgeImportDrafts.RepeatedNewTitleIsNot` | server/knowledge-space.js:1008-1017 | Two sections with one new title are drafted as new documents, and no document is edited twice |
| `KnowledgeImportDrafts.RenamedChildIsEditedTwice` | server/knowledge-space.js:894-902 | Sections A and B edit one document twice when the child with the title B has the id made from A |
| `KnowledgeConsensus.RootFoundIffReached` | server/knowledge-space.js:491-501 | It finds exactly the root that some number of parent steps reaches, and none when the chain cycles or dangles |
| `KnowledgeConsensus.DocumentsFollowTheirRoots` | server/knowledge-space.js:468-518 | A document whose parent chain reaches a root carries its consensus id, root id and title |
| `KnowledgeConsensus.AnchorsFollowTheirDocuments` | server/knowledge-space.js:520-527 | An anchor agrees with its document on every id the document has |
| `KnowledgeConsensus.GroupsAreDistinct` | server/knowledge-space.js:477-541 | One group per non-empty consensus id of the roots, none twice, each naming the last root that carries it |
| `KnowledgeConsensusRuns.SecondRunIsIdleIff` | server/knowledge-space.js:458-541 | A second run changes no document exactly when every id chosen from the input holds text and, for each untitled root, the first root in sorted order with its id is given a title that decodes to the one the untitled root is given |
| `KnowledgeConsensusRuns.SecondTitle` | server/knowledge-space.js:468-488 | In a second run the group that an untitled root finds has the title of the first root with its id |
| `KnowledgeConsensusRuns.SecondRunIsIdle` | server/knowledge-space.js:458-541 | With ids that are missing or hold text, and titled roots, a second run changes no document and no anchor |
| `KnowledgeConsensusRuns.BlankIdIsReplaced` | server/knowledge-space.js:468-476 | A root with a blank id loses it in the first run and gets an invented one in the second |
| `KnowledgeConsensusRuns.UntitledRootIsRenamed` | server/knowledge-space.js:468-488 | Of two roots with one id the untitled one takes the other's title in the second run |
| `NotifyRelayRuns.SettledAtMostOnce` | server/notify-relay.js:42-52 | In every interleaving a command settles at most once |
| `NotifyRelayRuns.HeldUntilSettled` | server/notify-relay.js:133-150 | Until it settles, a command has a live timer and entry, or an ack handler that holds it, and either settles it |
| `NotifyRelayRuns.AcknowledgementIsInRun` | server/notify-relay.js:42-52 | A command reported acknowledged was acknowledged by a message of the run on the connection it was sent on |
| `NotifyRelayRuns.CloseSparesReplacement` | server/notify-relay.js:84-117 | Closing a socket settles all its commands and never evicts the connection that replaced it |
| `NotifyRelayRuns.DrainedForEver` | server/notify-relay.js:236-246 | After a drain every later call finds its daemon offline |
| `NotifyRelayRuns.PendingAfterDrain` | server/notify-relay.js:127-150 | After a drain only commands can be pending whose calls were past their lookup, and not registered, when it began |
| `NotifyRelayRuns.StaysEmptyIff` | server/notify-relay.js:236-246 | The pending list stays empty in every continuation of a drain exactly when there was no such call |
| `NotifyRelayRuns.RegistersAfterDrain` | server/notify-relay.js:127-150 | One call that was past its lookup registers after a drain |
| `ConfigYaml.ParseBlockAt` | server/config-yaml.js:63-114 | A block parse always moves the index forward, so the mutual recursion ends on every input |
| `ConfigYamlRoundTrip.ParserReads` | server/config-yaml.js:39-117 | From the block layout of any tree the parser reads exactly the stated value, its two misreadings included |
| `ConfigYamlRoundTrip.RoundTripsIff` | server/config-yaml.js:39-117 | It returns the tree exactly when the tree has neither of the two forms it misreads |
| `ConfigYamlValues.ValueReadsBackIff` | server/config-yaml.js:20-117 | A configuration value written out with its strings quoted is read back as it was exactly when no list item is a string with a colon or a mapping whose first of several entries is an empty mapping |
| `ConfigYamlRoundTrip.ColonItemIsSplit` | server/config-yaml.js:86-101 | A scalar item with a colon in it comes back as a mapping |
| `ConfigYamlRoundTrip.EmptyFirstEntrySwallows` | server/config-yaml.js:48-61 | An item's empty first mapping takes in the entries after it |
| `ConfigYaml.StripCommentSpec` | server/config-yaml.js:5-18 | A comment starts at the first `#` outside quotation marks that is at the start or after white space; otherwise only trailing white space goes |
| `ConfigYamlRoundTrip.QuotedScalarWithComment` | server/config-yaml.js:5-37 | A quoted text comes back whole, `#` included, and the comment after it goes |
| `RealtimeReload.NoRequestIsLost` | server/index.js:809-860 | In every interleaving a pending request has a timer or a running flush, at most one of these exists, and every accepted request was picked up by a flush that started after it, or is still pending |
| `RealtimeReload.PickedUpWithinOneFlush` | server/index.js:825-860 | From every reachable state the end of the running flush and the next timer leave no accepted request behind |
| `ConversationReferences.DistinctIdsSpec` | server/conversation-references.js:31-42 | Those ids are trimmed, not empty, distinct, and all that the input has |
| `ConversationReferences.MergeKeepsUnlessLaterConflict` | server/conversation-references.js:139-161 | Item i survives exactly when no later item conflicts with it; survivors keep their order and no two conflict |
| `ConversationReferences.ConflictIsNotTransitive` | server/conversation-references.js:139-150 | Three references of which the outer two do not conflict but each conflicts with the middle one |
| `ConversationReferences.NormalizedIsNormal` | server/conversation-references.js:59-106 | What normalization returns is clean: trimmed, within its limits, with distinct ids |
| `ConversationReferences.NormalizingAgain` | server/conversation-references.js:59-114 | Normalizing a normalized list again only fills in missing source kinds |
| `ConversationReferences.StoredListIsStableIff` | server/conversation-references.js:108-114 | It changes nothing exactly when no reference has a parent message without a source kind |
| `ConversationReferences.StoredListCanChange` | server/conversation-references.js:54-57 | An unknown source kind beside a parent message is dropped and then becomes "reply" |
| `ConversationReferences.SecondNormalizationSettles` | server/conversation-references.js:108-114 | A third normalization never changes anything |
| `MarkdownDocument.SectionBounds` | server/markdown-document.js:63-78 | The two loops return the heading's index and the next heading of any level, or -1 and -1 |
| `MarkdownDocument.DeterministicCleanupMarkdown` | server/markdown-document.js:155-197 | The grouping, merging and filtering loops compute the cleanup that the lemmas speak of |
| `MarkdownDocument.MergeSections` | server/markdown-document.js:169-180 | The map from heading to section always finds the first section with that heading, so merging appends to it |
| `MarkdownOplog.Store.ReadMarkdownOperationRecords` | server/markdown-oplog.js:83-94 | The loops over files and lines return the sorted records that the lemmas speak of |
| `MarkdownOplog.Store.RebuildMarkdownFromOplog` | server/markdown-oplog.js:96-113 | The loop replays the whole log, and throws exactly when an operation does |
| `MarkdownOplog.Store.EnsureMarkdownDocumentLog` | server/markdown-oplog.js:140-214 | A manifest is kept, rebuilt from the segments, or created with the log, and a crash may fall between log and manifest |
| `MarkdownOplog.Store.AppendMarkdownOperationRecord` | server/markdown-oplog.js:227-300 | The whole new disk after an append, segment roll-over and crash included |
| `MarkdownOperations.Applier.RepairMaterializedFile` | server/markdown-operations.js:110-120 | The file becomes the replay of the log, and nothing else changes |
| `MarkdownOperations.Applier.ApplyNow` | server/markdown-operations.js:122-289 | The disk and the answer of one operation: deduplication, repair, append, file write, each step with its crash |
| `OperationQueue.OperationQueues.SubmitAgentMarkdownOperation` | server/markdown-operations.js:291-314 | A submission chains after the tail of its document's queue and becomes the tail |
| `OperationQueue.OperationQueues.RunFinally` | server/markdown-operations.js:309-311 | The cleanup removes the tail only if it is still this submission |
| `KnowledgeDiff.FillTable` | server/knowledge-space.js:1604-1611 | The nested loops fill every entry of the table |
| `KnowledgeSessions.KnowledgeSpace.UpsertDocumentFromMarkdown` | server/knowledge-space.js:783-832 | A new version based on the document's current one, and the document showing it |
| `KnowledgeSessions.KnowledgeSpace.CreateKnowledgeChangeSession` | server/knowledge-space.js:1631-1661 | A draft with the normalized changes and their base versions, or the error and no change |
| `KnowledgeSessions.KnowledgeSpace.TransitionSession` | server/knowledge-space.js:1670-1698 | The allowed moves between draft, diff and preview, and the errors |
| `KnowledgeSessions.KnowledgeSpace.PublishKnowledgeSession` | server/knowledge-space.js:2043-2082 | Conflicts send the session back to diff; otherwise all changes are published and the session is frozen |
| `KnowledgeMarkdown.SplitMarkdownByHeadings` | server/knowledge-space.js:307-349 | The loop over lines computes the split that the lemmas speak of |
| `KnowledgeMarkdown.ExportKnowledgeConsensusMarkdown` | server/knowledge-space.js:1202-1218 | The loop over children builds the text that the lemmas speak of |
| `KnowledgeConsensus.RootForDoc` | server/knowledge-space.js:491-501 | The parent walk ends on every graph and returns what the walk function does |
| `KnowledgeConsensus.ConsensusSpace.EnsureConsensusAssignments` | server/knowledge-space.js:458-541 | The documents, anchors and groups after a run, for any sorted order of the roots |
| `NotifyRelay.NotifyRelay.HandleUpgrade` | server/notify-relay.js:67-125 | A new connection replaces the old one for its relay unless the relay is draining |
| `NotifyRelay.NotifyRelay.RegisterCommand` | server/notify-relay.js:127-156 | After the start audit the command gets its timer and its pending entry, even if its connection has gone since |
| `NotifyRelay.NotifyRelay.HandleAck` | server/notify-relay.js:35-52 | An acknowledgement on the command's own connection takes the entry and the timer; any other changes nothing |
| `NotifyRelay.NotifyRelay.HandleClose` | server/notify-relay.js:108-117 | A closed socket settles its pending commands and gives up its place only if it still has it |
| `NotifyRelay.NotifyRelay.Drain` | server/notify-relay.js:236-246 | A drain settles all pending commands and closes all connections |
| `ConfigYaml.StripInlineComment` | server/config-yaml.js:5-18 | The loop computes that comment start |
| `ConfigYaml.ParseItemAt` | server/config-yaml.js:73-103 | One item of a sequence, its first entry beside the dash and its continuation blocks |
| `ConfigYaml.ParseSimpleYaml` | server/config-yaml.js:39-117 | The parser ends on every text and returns what the parsing function does |
| `RealtimeReload.Reloader.ScheduleRealtimeReload` | server/index.js:809-823 | A request is added to what is pending, and a timer is set unless one is set or a flush runs |
| `RealtimeReload.Reloader.EndFlushRealtimeReload` | server/index.js:852-859 | The end of a flush sets a timer exactly when something is pending |
| `ConversationReferences.CleanIds` | server/conversation-references.js:31-42 | The loop with its early exit returns the first fifty distinct trimmed ids |
| `ConversationReferences.MergeConversationReferencesBySource` | server/conversation-references.js:152-161 | The backward splice and push compute the merge that the lemmas speak of |
| `KnowledgeImport.Importer.ImportNewConsensus` | server/knowledge-space.js:1041-1149 | The documents, links and session that a fresh import writes, one section after the other |
| `KnowledgeImport.Importer.DraftImport` | server/knowledge-space.js:998-1027 | The draft that an import of an existing consensus creates |

## Left out

- Characters: strings are sequences of Unicode characters, not UTF-16 units; lower-casing covers the ASCII letters; white space and line terminators are those of JavaScript regular expressions.
- Records: time stamps, agent and workspace ids, summaries and sources of a log record or version are not modelled, nor is the JSON text; a torn log line cannot occur in the model.
- Idempotency keys: the default key (server/markdown-operations.js:48-54) is an input, and `cleanOperation` and path cleaning happen before the model starts; a missing operation type is the unsupported operation with an empty name.
- Numbers in log options: the size limits are integers; a manifest that cannot be parsed counts as lost.
- After the file write: index and mirror persistence, system events and `flushAsyncPersists` do not feed back and are not modelled.
- MarkdownRewrites.ReplaceOverwritesIff: blank lines aside, for a trimmed single-line heading that is not empty.
- MarkdownBoundaries.FirstSectionIsReplayIff: a condition on the text is given for operations that add a section; for those that change one, or the front matter, or clean up, the condition is that of FirstApplyIsReplayIff.
- MarkdownRewrites.FrontmatterLastWriteWins: blank lines aside, since the position of collapsed blank runs is not followed; `markdownScalar` is taken as already applied, giving one line.
- MarkdownBullets.UpsertsKeepMostRecent: blank lines aside, for single-line trimmed bullets and a heading the text does not have yet.
- MarkdownBullets.UpsertsIntoSection: the same bullets under a heading the text has; its live bullets are trimmed and distinct, and the heading after it is still one once the end of the text is trimmed.
- Direct answers to repeated keys return before the hash check, so repair of the file is claimed for applied operations only.
- Change sessions: actors, summaries, diffs stored for review, the change log, notifications, `changeSessionId` on versions, the change list of an import session and changes of server policy are not modelled.
- Knowledge documents: titles, levels and parents are carried along without claims; search, rendering to HTML, language-model alignment, Feishu calls, encryption and `mergeKnowledgeSpaceState` are not modelled.
- KnowledgeImportRoundTrip.ExportImportsBackIff: titles are trimmed single lines without backslash escapes; bodies are trimmed, do not start with a heading of their own level and, in the root, hold no generated link lines, since the exporter takes those away. `normalizeConsensusTitle` is any function of the title, so its Unicode classes and version suffixes are not modelled; whether an import finds an existing consensus (server/knowledge-space.js:846-892) is an input; anchors and the other links are not modelled.
- KnowledgeMarkdownRoundTrip.ExportParsesBackIff: the same titles and bodies.
- KnowledgeImportDrafts.DraftEditsApartIff: document ids are trimmed and distinct, as a space keeps them; which documents are children of the consensus (server/knowledge-space.js:896-900) is any predicate, and the group's root id (server/knowledge-space.js:986-988) any id.
- KnowledgeImport.Importer.ImportNewConsensus: the space had no document of the consensus, so that its children are those whose parent is the root made by the import; a group whose root document is gone is imported anew under its old root id, which is not modelled.
- KnowledgeConsensusRuns.SecondRunIsIdleIff: document ids are distinct, as a space keeps them.
- KnowledgeConsensus.ConsensusSpace.EnsureConsensusAssignments: the locale-dependent sort of the roots and `consensusIdForRoot` are inputs; source names, URLs and times of a group are not modelled.
- Relay: WebSocket handshakes, tokens, heartbeats, audit contents and the payload of a command are not modelled; a result message does not settle a command and is left out.
- ConfigYamlRoundTrip.RoundTripsIff: keys are trimmed single lines without a colon, not starting with `#` or a dash and a space, and distinct in their mapping; scalars are trimmed single lines whose value is what `parseScalar` gives; a sequence directly inside a sequence and an empty block sequence have no layout that the parser reads.
- Configuration values: a number is kept as its numeral, and the special treatment of integer-like and `__proto__` keys by JavaScript objects is not modelled; mapping settings to environment variables and redaction are not modelled.
- Reload coalescer: the loads themselves are left out, whether they fail or not; what matters is when a flush starts and ends.
- References: the alternative names of a field are given in order, the id made for a reference without one is an input, and `cleanIds` sees strings only.
