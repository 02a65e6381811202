# Nulldown branch state plane: a verified model

This project models, in Dafny, the part of Nulldown that decides what a branch of a drop
contains: the append-only document timeline with its two commit paths, the runtime-fact
stream, branch memory (NullMem), the canonical JSON they all rest on, and the state plane
that lets any number of writers prepare against a captured head and publish only if that head
is still there. Two smaller algorithms of the same repository are modelled as well: the
exclusive-time sweep of the profiler and the import closure of the package check.

The layers, each in files of their own:

- **Text and JSON.** `JsText` (UTF-16 units, lone surrogates, what TextEncoder loses), `Utf8`,
  `JsonNumber`, `Json`, `JsonCanonical`, `JsonEdit` (JSON.stringify, JSON.parse, the canonical
  serializer, field edits), `ObjectGraph` and `JsonHeap` (the object walks over cyclic heaps, and
  heaps that hold a value), `TextDiff` and `LcsDiff` (the two differs).
- **Preparing.** `BranchState`, `EventIdentity`, `BranchCommit`, `BranchBatch`, `BranchLifecycle`,
  `RuntimeFacts`, `NullMem`: pure preparation from a captured head.
- **One branch.** `Timeline` (what is stored, how a publication adds to it, the invariant),
  `Submission`, `BatchFusion`, `DiffReceipt`, `FactStream`, `NullMemCheck`, `NullMemState`,
  `NullMemQuery`, `NullMemAnswer`, `Selection`; `WireScript` (what operations do to the text).
- **Every run.** `RowNames` and `StatePlane` (operations split at their `await`, with their
  answers; runs as sequences of actions that name the moment they captured), `Runs` (safety of
  every interleaving), `RunResults` (what callers may rely on), `Retries` (what resubmission is
  answered), `CommitPaths` (append against a batch of one), `WriteAccess` (who may write, and
  what a write leaves behind), `OutboxIds`, and `BranchOwner`, the class with its maps and tickets.
- **Separate.** `Waterfall`, `PackageClosure`.

Main results: `Runs.RunSafe` (one invariant over documents, facts, memory and lifecycle in
every state of every interleaving, and nothing recorded is ever lost), `RunResults.RecheckIsEnough`
(no ABA), `RunResults.NeverCorrupt` (no operation of any run reports corruption),
`BatchFusion.Fusion`, `CommitPaths.PathsAgree`, `Retries.BatchRetry`, `DiffReceipt.ClientConfirms`,
`NullMemCheck.ValidateState` with `NullMemCheck.AcceptedIsReplay` and `NullMemState.CheckerAccepts`,
`OutboxIds.NoIdTwice` with `OutboxIds.BranchesApart`, `JsonCanonical.CanonicalDecides`,
`ObjectGraph.AcceptsExactly`, `WireScript.BatchedSession`, `NullMemAnswer.AnswerMeans`,
`RunResults.ReservationDecides`, `WriteAccess.FactAnswers` with `WriteAccess.PutAnswers`.

Two statements one would expect turned out not to hold of the code, and are stated exactly:

- A differ's script replays to the new text if and only if everything it inserts survives UTF-8:
  the changed middle for the prefix-suffix differ, every hunk of the walk for the table differ
  (`TextDiff.PrefixSuffixCompute`, `LcsDiff.LcsDpCompute`). A script that splits a surrogate pair
  does not replay (`TextDiff.SplitPairIsLost`, `LcsDiff.SplitPairIsLostAgain`), and neither does
  one with a hunk that starts with a byte order mark, which a later hunk never makes good.
- The answer check refuses every non-empty memory answer at revision zero, although the integrity
  check accepts a revision-zero baseline that has records (`NullMemQuery.AnswerPassesExactly`,
  `NullMemQuery.NoteRefused`). From an empty baseline every answer passes.

Modelling decisions: SHA-256 is taken to be free of collisions (a digest is a value built from
what was hashed, after TextEncoder's loss, which `Utf8.ScrubIsBytes` shows to be the bytes); safe integers are mathematical integers with
explicit bounds; the clock is a parameter; rounding and locale comparison are parameters, the latter
with the laws of a total preorder. `hide` statements only narrow what a proof looks at.

## Model

| member | source | states |
|---|---|---|
| JsText.RecodeFixed | shared/nulledit/textDiff.ts:22-33 | encoding and decoding gives a text back exactly when it has no lone surrogate and no leading byte order mark |
| Utf8.ScrubIsBytes | shared/nulledit/textDiff.ts:22-33 | the text with its lone surrogates replaced is what the UTF-8 bytes decode to, and bytes are equal exactly when these texts are |
| JsonNumber.NumberRoundTrip | shared/drop/branch-runtime-facts.ts:80-81 | every print format of a finite number is read back to that number, -0 as 0 |
| Json.ParseWrite | shared/drop/branch-runtime-facts.ts:144-146 | JSON.parse undoes JSON.stringify on every well-formed value, lone surrogates and nesting included |
| JsonNumber.NumberForms | shared/drop/branch-runtime-facts.ts:80-81 | an exponent exactly below 1e-6 and from 1e21 on, always signed; a point exactly where digits follow it; no digit more than the shortest |
| Json.EscapeForms | shared/drop/branch-runtime-facts.ts:78-79 | which units of a string are escaped, in the short form where there is one and otherwise as four lower-case hex digits that read back to the unit |
| Json.WriteIsCompact | shared/drop/branch-runtime-facts.ts:93-105 | printed text has no white space of its own |
| JsonCanonical.ParseCanonical | shared/drop/branch-runtime-facts.ts:144-146 | parsing canonical text gives the value with its keys sorted |
| JsonCanonical.KeyLessByUnits | shared/drop/branch-runtime-facts.ts:96-97 | one key is before another exactly when it is a proper prefix or smaller at the first unit where they differ |
| JsonCanonical.CanonicalAscends | shared/drop/branch-runtime-facts.ts:93-105 | in canonical text, neighbouring keys of every object at every level are in that order |
| JsonCanonical.CanonicalDecides | shared/drop/branch-runtime-facts.ts:74-110 | two values have the same canonical text exactly when they are equal up to key order at every level |
| JsonCanonical.CanonicalStable | shared/drop/branch-runtime-facts.ts:74-110 | canonicalising what was parsed from canonical text changes nothing |
| JsonEdit.WriteWellFormed | shared/drop/branch-runtime-facts.ts:168-173 | JSON text is well-formed UTF-16 whatever strings it holds, so hashing its bytes loses nothing |
| ObjectGraph.AcceptsExactly | shared/drop/branch-runtime-facts.ts:75-109 | on every finite heap the walk accepts exactly when no path from the value meets a non-JSON leaf or comes back to an object on it; shared acyclic structure passes |
| ObjectGraph.ArrayShape | shared/drop/branch-runtime-facts.ts:88-92 | which arrays either walk goes into (symbols, own keys, getters) and what it sees in each place, holes and undefined included |
| ObjectGraph.ObjectShape | shared/drop/branch-runtime-facts.ts:93-105 | which objects either walk goes into (symbols, prototype, getters) and exactly which properties it sees |
| ObjectGraph.UnfoldWf | shared/drop/branch-nullmem.ts:95-150 | what either walk accepts is a well-formed JSON value |
| ObjectGraph.Walker.Visit | shared/drop/branch-runtime-facts.ts:76-109 | the recursion with its mutable `seen` set terminates, restores the set, and returns the canonical text or fails exactly as the tree unfolding does |
| ObjectGraph.Walker.VisitElements | shared/drop/branch-runtime-facts.ts:88-92 | array elements are joined to the canonical text of the array |
| ObjectGraph.Walker.VisitFields | shared/drop/branch-runtime-facts.ts:93-105 | sorted fields are joined to the canonical text of the object |
| JsonHeap.BuildUnfolds | shared/drop/branch-runtime-facts.ts:144-146 | a heap with one object per array and object of a JSON value is unfolded to that value by either walk |
| JsonHeap.CaptureStable | shared/drop/branch-nullmem.ts:95-150 | captured text parses, and capturing the parsed value again gives the same text by either walk |
| TextDiff.CommonBounds | shared/nulledit/textDiff.ts:98-139 | the trimming loops find the longest shared prefix and then the longest shared suffix |
| TextDiff.PrefixSuffixCompute | shared/nulledit/textDiff.ts:41-94 | replaying the script gives the new text if and only if the changed middle survives UTF-8; at most two operations that carry just the two middles |
| TextDiff.SplitPairIsLost | shared/nulledit/textDiff.ts:41-94 | a concrete pair of well-formed texts whose changed middle does not survive and whose script does not replay |
| LcsDiff.FillTable | shared/nulledit/textDiff.ts:167-180 | the table holds the longest-common-subsequence lengths of all suffix pairs |
| LcsDiff.LcsIsLongest | shared/nulledit/textDiff.ts:146-257 | no common subsequence is longer than the table says |
| LcsDiff.WalkHunk | shared/nulledit/textDiff.ts:206-235 | the inner loop ends where the heads meet again or both texts do, with the tie-break of the source |
| LcsDiff.WalkTable | shared/nulledit/textDiff.ts:182-257 | the walk emits exactly the specified hunks at their positions in the new text |
| LcsDiff.ScriptCost | shared/nulledit/textDiff.ts:182-257 | the script carries exactly what lies outside one longest common subsequence |
| LcsDiff.ReplaysExactly | shared/nulledit/textDiff.ts:182-257 | for all texts, lone surrogates and byte order marks included, the script replays if and only if every inserted hunk survives UTF-8 |
| LcsDiff.LcsDpCompute | shared/nulledit/textDiff.ts:146-257 | replays if and only if every hunk survives, or the whole changed middle over the cell budget; within the budget it carries the least text any subsequence-keeping script can |
| LcsDiff.SplitPairIsLostAgain | shared/nulledit/textDiff.ts:146-257 | the split pair is lost by this differ too, whatever the cell budget |
| WireScript.LegacyRecord | shared/drop/codecs/diff-v1.ts:371-386 | an insert gives the text before, the inserted text after its trip through UTF-8, and the text behind; a delete cuts its range out; positions outside the text are moved to its nearest end |
| WireScript.NativeRecord | shared/drop/codecs/diff-v1.ts:360-369 | the same for native records, which decide alone; a retained span changes nothing |
| WireScript.RecordsReplay | shared/drop/codecs/diff-v1.ts:341-358 | applying the records of any edit script, in order, is applying the script |
| WireScript.CommittedEdit | shared/drop/branch-commit.ts:61-92 | a commit of the records of either differ's script stores the new text, its hash and its length exactly when what the script inserts survives UTF-8 |
| WireScript.BatchedSession | shared/drop/branch-batch.ts:176-211 | an editing session sent as one envelope leaves the last text if every edit survives UTF-8; an envelope of one edit only then |
| EventIdentity.OpDecides | shared/drop/branch-state.ts:349-364 | two operation records have the same JSON, up to key order, exactly when every legacy and native field is the same or absent in both |
| EventIdentity.PayloadHashDecides | shared/drop/branch-state.ts:356-368 | payload hashes are equal exactly when writer-visible fields are, metadata up to key order; assigned sequence and snapshot do not count |
| BranchState.DomainHashDecides | shared/drop/resolved/hash.ts:32-40 | within one domain prefix, well-formed texts have equal hashes only when they are equal |
| BranchState.HashSourceDecides | shared/drop/resolved/hash.ts:32-40 | content hashes are equal exactly when the UTF-8 bytes are |
| BranchState.FollowsNamed | shared/drop/branch-state.ts:342-346 | the predecessor an event names is the integer in its metadata, and an event without it names none |
| BranchState.TupleTextDecides | shared/drop/branch-batch.ts:223-228 | texts of JSON tuples of strings and integers are equal exactly when the tuples are |
| BranchState.RowIdsDecide | shared/drop/branch-commit.ts:102-107 | commit and batch row ids name their target and event or snapshot, and never collide |
| BranchCommit.FromRecord | shared/drop/branch-state.ts:325-383 | accepts exactly decodable events for this root that name the expected predecessor and carry their own hash; only assigned fields are dropped, which does not change the hash |
| BranchCommit.FoldOps | shared/drop/branch-commit.ts:61-67 | the loop over operations is the fold of inserts and deletes; retained spans are skipped |
| BranchCommit.PrepareBranchCommit | shared/drop/branch-commit.ts:20-113 | all refusals in order, otherwise exactly the specified branch, snapshot, event, content, receipt and outbox row |
| BranchBatch.CaptureBatch | shared/drop/branch-batch.ts:20-49 | accepts exactly envelopes of decodable events for this root; every event kept in order, only assigned fields reset |
| BranchBatch.Classify | shared/drop/branch-batch.ts:126-142 | the loop over the envelope refuses exactly on an id with two payloads, and otherwise yields the first mentions and those without a receipt |
| BranchBatch.FirstsMembers | shared/drop/branch-batch.ts:126-142 | first mentions have exactly the ids of the envelope |
| BranchBatch.FreshDistinct | shared/drop/branch-batch.ts:126-142 | no id is accepted twice |
| BranchBatch.FreshMembers | shared/drop/branch-batch.ts:126-142 | accepted are exactly the first mentions without a stored receipt |
| BranchBatch.CheckPredecessors | shared/drop/branch-batch.ts:143-150 | passes exactly when each stated predecessor is the sequence right before the event's place |
| BranchBatch.FoldEvents | shared/drop/branch-batch.ts:181-186 | the content loops are the fold over events and operations |
| BranchBatch.FirstsCovered | shared/drop/branch-batch.ts:240-253 | every distinct id has a stored or new receipt to acknowledge |
| BranchBatch.Acknowledge | shared/drop/branch-batch.ts:240-253 | one acknowledgement per distinct id, the stored receipt deciding where there is one |
| BranchBatch.PrepareBranchBatch | shared/drop/branch-batch.ts:88-254 | all refusals in order, otherwise exactly the specified result, version, receipts and outbox row |
| BranchLifecycle.OwnershipByPrincipals | shared/drop/branch-lifecycle.ts:261-273 | sameness of ownership is equality of principals, so an equivalence; a client id counts only without an account |
| BranchLifecycle.InitIntentDecides | shared/drop/branch-lifecycle.ts:323-329 | intents and their hashes are equal exactly when the commands are, lone surrogates included |
| BranchLifecycle.InitialDocOk | shared/drop/branch-lifecycle.ts:305-359 | every prepared initialization starts a document that keeps the timeline invariant |
| Timeline.PublishKeeps | src/server/state-plane/memory-commits.ts:408-438 | a publication prepared against the stored head keeps the invariant: gapless events, every snapshot the replay of all events up to it, patch ranges back to back, one receipt per event, and outbox rows that repeat the stored version, event ids and receipts |
| Timeline.PublishAdds | src/server/state-plane/memory-commits.ts:465-496 | publication changes no stored event, snapshot, metadata or receipt, nor the ownership and status of the branch, and adds exactly its own |
| Timeline.PublishedRowIsNew | src/server/state-plane/memory-commits.ts:169-192 | the id of a new outbox row is taken by no stored one |
| Submission.CommitFits | shared/drop/branch-commit.ts:56-113 | what the single-event path prepares fits the head it was prepared against |
| Submission.BatchFits | shared/drop/branch-batch.ts:165-239 | what the batch path prepares fits the head it was prepared against |
| Submission.ReachableHeadErrors | shared/drop/branch-batch.ts:102-123 | on a reachable head the coherence checks never fire, and exhaustion means the new events would pass the largest safe integer |
| Submission.ReachableCommitErrors | shared/drop/branch-commit.ts:28-60 | the same for the single-event path |
| Submission.StoredOnce | shared/drop/branch-batch.ts:126-142 | no event id is stored at two sequences |
| Submission.RetryAcknowledges | shared/drop/branch-batch.ts:240-253 | an envelope of stored events, by whichever path they came, changes nothing at any later head and is answered with their original sequences and snapshots |
| BatchFusion.Fusion | shared/drop/branch-batch.ts:126-191 | a non-empty envelope is accepted exactly when its events are one at a time, each with a clock reading of its own, with the same text, the same events in the same places and the same total; only snapshot ids and times differ |
| BatchFusion.AcksNamePlaces | shared/drop/branch-batch.ts:240-253 | every acknowledgement, of an accepted event or a duplicate, names the sequence and snapshot at which the resulting document stores the event |
| BatchFusion.SameReceipt | shared/drop/branch-batch.ts:212-221 | both ways leave receipts of the same ids for the same sequences and payloads |
| DiffReceipt.HasConfirmedReceipt | shared/drop/diff.ts:235-269 | the loop with its set and counters confirms exactly when every submitted id is acknowledged once, nothing else is, and the counts cover the submission |
| DiffReceipt.Tally | shared/drop/diff.ts:248-268 | early exits happen exactly on a foreign or repeated id |
| DiffReceipt.ConfirmedMeans | shared/drop/diff.ts:219-269 | a confirmed response has exactly one answer for each event sent, accepted or duplicate with sequence and snapshot, and no answer about anything else |
| DiffReceipt.ClientConfirms | functions/api/_lib/diffs/transport/service.ts:344-365 | the response to every successful batch, read back from its JSON text, is confirmed for the submitted ids, repeated ids and old duplicates included |
| RuntimeFacts.IdentityDecides | shared/drop/branch-runtime-facts.ts:112-119 | identities are equal exactly when kind, handle and id are |
| RuntimeFacts.FactIdDecides | shared/nullplug/ui.ts:229-232 | public ids tell facts apart as long as no handle has a colon in it |
| RuntimeFacts.FactIdCollides | shared/nullplug/ui.ts:229-232 | two concrete facts with colons that share a public id and differ in identity, so names are checked beside identities |
| RuntimeFacts.FactKeySafe | shared/nullplug/ui.ts:131-132 | storage keys hold letters, digits and . _ : - / only, whatever the names hold |
| RuntimeFacts.IntentDecides | shared/drop/branch-runtime-facts.ts:157-173 | intents, and their hashes, are equal exactly when the facts differ at most in createdAt and source.snapshotId |
| RuntimeFacts.StoredFactMatches | shared/drop/branch-runtime-facts.ts:284-302 | at whatever head and time it is stored, a fact keeps identity, public id, storage key and intent |
| RuntimeFacts.SameRequestSameIdentity | shared/drop/branch-runtime-facts.ts:112-166 | facts with the same request have the same identity |
| FactStream.CaptureKeepsFact | shared/drop/branch-runtime-facts.ts:131-155 | capture is in scope, keeps every field but metadata, and takes the actor from the session |
| FactStream.PreparedFactValid | shared/drop/branch-runtime-facts.ts:268-303 | every prepared receipt passes receipt validation, keeps the intent, and carries the head's snapshot id and content hash |
| FactStream.AppendKeepsFacts | src/server/state-plane/memory-commits.ts:612-659 | gapless fact sequences, one receipt per identity, distinct public names, and each source hash the hash of the snapshot it names |
| FactStream.FactsSurviveCommits | src/server/state-plane/memory-commits.ts:408-438 | document commits do not disturb that joint invariant |
| FactStream.FactRetry | src/server/state-plane/memory-commits.ts:621-631 | a known identity is answered with the original receipt exactly when the request is the same, and otherwise refused as reused |
| FactStream.FactRowIdDecides | shared/drop/branch-runtime-facts.ts:306-324 | fact row ids name target, placement and identity |
| NullMem.RecordIdentityDecides | shared/drop/branch-nullmem.ts:237-240 | identities are equal exactly when kind and record id are |
| NullMem.RecordIntentDecides | shared/drop/branch-nullmem.ts:305-310 | intents are equal exactly when the records differ at most in createdAt |
| NullMem.StampedRecord | shared/drop/branch-nullmem.ts:426-443 | the assigned time keeps a record valid, its identity and its intent |
| NullMemCheck.CheckBaseline | shared/drop/branch-nullmem.ts:539-545 | accepts exactly valid records with distinct identities and builds their table |
| NullMemCheck.CheckLog | shared/drop/branch-nullmem.ts:546-587 | accepts exactly a log in order, each entry authorised, stamped and consistent, and computes its replay |
| NullMemCheck.MatchRecords | shared/drop/branch-nullmem.ts:588-599 | accepts exactly the records of the table, each once, equal up to key order |
| NullMemCheck.ValidateState | shared/drop/branch-nullmem.ts:512-603 | the checker decides exactly whether the live records are the replay of a well-formed log over the baseline |
| NullMemCheck.AcceptedIsReplay | shared/drop/branch-nullmem.ts:507-511 | an accepted state has lost, added, duplicated and altered nothing |
| NullMemCheck.AcceptedIsHistory | shared/drop/branch-nullmem.ts:546-587 | an accepted log has one entry per revision, each by the owner or writer of its coherent head, heads in order up to the present one, each put a record of this branch with the entry's own time and intent |
| NullMemState.SetTable | src/server/state-plane/memory-commits.ts:553-557 | setting a record is the map update and keeps identities distinct |
| NullMemState.RemoveTable | src/server/state-plane/memory-commits.ts:585-589 | deletion removes every kind of the record id and nothing else |
| NullMemState.CheckerAccepts | shared/drop/branch-nullmem.ts:512-603 | the checker accepts every state that keeps the memory invariant |
| NullMemState.PutKeepsMemory | src/server/state-plane/memory-commits.ts:541-570 | an authorised put keeps the memory invariant |
| NullMemState.DeleteKeepsMemory | src/server/state-plane/memory-commits.ts:573-602 | an authorised deletion, of an absent id too, keeps it |
| NullMemState.MemorySurvivesCommits | src/server/state-plane/memory-commits.ts:408-438 | document commits in between keep it |
| NullMemState.PutResponseValid | shared/drop/branch-nullmem.ts:389-408 | every published put passes the caller's check of its response |
| NullMemState.PutResponseMeans | shared/drop/branch-nullmem.ts:389-408 | a response that passes is about the requested record, apart from its time, and about an actor who owns or writes the branch |
| NullMemState.DeleteResponseValid | shared/drop/branch-nullmem.ts:410-423 | every published deletion passes the caller's check of its response |
| NullMemState.DeleteResponseMeans | shared/drop/branch-nullmem.ts:410-423 | the same for deletion, of the requested id |
| NullMemState.MemoryRowIdDecides | shared/drop/branch-nullmem.ts:465-473 | memory row ids name target, placement and revision |
| Selection.Select | shared/drop/branch-nullmem.ts:211-234 | the bounded insertion loop returns the first `limit` of the stable sort of what passes the filter, ties in arrival order |
| Selection.SelectionUnique | shared/drop/branch-nullmem.ts:211-234 | that selection is a function of the input |
| Selection.SelectionIdempotent | shared/drop/branch-nullmem.ts:379-383 | selecting from a selection changes nothing |
| NullMemQuery.CompareOrders | shared/drop/branch-nullmem.ts:204-208 | score, then time, then locale order of ids is a total preorder |
| NullMemQuery.QueryRecords | shared/drop/branch-nullmem.ts:194-235 | malformed selections are refused, and the answer is the selection by kind, procedure, labels and tokens |
| NullMemAnswer.TokensAreWords | shared/drop/branch-nullmem.ts:199-203 | the tokens are the maximal runs of a-z and 0-9 longer than one, each where it stands, in order, and no other |
| NullMemAnswer.KeepsExactly | shared/drop/branch-nullmem.ts:213-225 | a record is kept exactly when it has the kind, the procedure id, all the labels, and every word of the question in its text |
| NullMemAnswer.AnswerMeans | shared/drop/branch-nullmem.ts:194-235 | every answer holds such records only, from different places, by descending score of words and priority, then by descending time, then by id, ties in arrival order; whoever is left out found the answer full and ranks behind all of it |
| NullMemAnswer.PriorityFirst | shared/drop/branch-nullmem.ts:204-206 | a record of lower priority comes first only where rounding makes the scores equal |
| NullMemAnswer.StampedTime | shared/drop/branch-nullmem.ts:207 | the time that is compared is the one the record was stamped with |
| NullMemQuery.ValidateQueryResult | shared/drop/branch-nullmem.ts:355-387 | the answer check accepts exactly bounded, valid, distinct, stamped answers that are their own selection, and none but the empty one at revision zero |
| NullMemQuery.AnswerPassesExactly | shared/drop/branch-nullmem.ts:361-366 | the answer of any accepted state passes exactly when it is empty or the revision is positive, and its records carry assigned times |
| NullMemQuery.ReachableAnswersPass | shared/drop/branch-nullmem.ts:355-387 | in every state reachable from an empty baseline every answer passes |
| NullMemQuery.BaselineAnswerRefused | shared/drop/branch-nullmem.ts:361-366 | a revision-zero baseline with a record is an accepted state whose answer is refused |
| NullMemQuery.NoteRefused | shared/drop/branch-nullmem.ts:361-366 | a concrete such record |
| Runs.SameVersionSameDoc | shared/drop/branch-state.ts:391-398 | a later state whose head has the same version has the same document |
| Runs.CommitKeeps | src/server/state-plane/memory-commits.ts:391-439 | publishing a ticket of the single-event path succeeds once its rechecks pass and keeps the invariant, whatever happened since it was prepared |
| Runs.BatchKeeps | src/server/state-plane/sqlite-commits.ts:979-1070 | publishing a batch ticket succeeds after the version recheck and keeps the invariant |
| Runs.Registers | src/server/state-plane/memory-commits.ts:169-192 | registering a row for delivery never clashes with a registered one |
| Runs.ReserveKeeps | src/server/state-plane/memory-commits.ts:284-321 | one reservation wins and is never replaced |
| Runs.InitializeKeeps | src/server/state-plane/memory-commits.ts:324-377 | activation from an earlier captured authority starts a branch that keeps the invariant |
| Runs.FactKeeps | src/server/state-plane/memory-commits.ts:612-659 | appending a fact keeps the joint invariant and every earlier row |
| Runs.PutKeeps | src/server/state-plane/memory-commits.ts:541-570 | a put keeps the joint invariant and only extends the log |
| Runs.DeleteKeeps | src/server/state-plane/memory-commits.ts:573-602 | a deletion keeps the joint invariant and only extends the log |
| Runs.RunSafe | shared/drop/branch-batch.ts:79-99 | from an empty or a seeded branch, in every state of every interleaving the joint invariant holds, and everything recorded in an earlier state is unchanged in every later one |
| Runs.SeedDocOk | src/server/state-plane/memory-commits.ts:225-244 | a seeded branch starts with a document that keeps the timeline invariant |
| RunResults.PatchesPartition | shared/drop/branch-batch.ts:199-211 | each stored event lies in the patch range of exactly one snapshot, the one it is marked with |
| RunResults.RecheckIsEnough | shared/drop/branch-commit.ts:13-19 | two moments with equal head versions have equal documents, so a ticket that passes the recheck publishes what a fresh preparation would |
| RunResults.StaleTicketRefused | src/server/state-plane/sqlite-commits.ts:1004-1007 | a ticket whose captured version is gone publishes nothing |
| Retries.CommitRetry | src/server/state-plane/memory-commits.ts:379-396 | once an event is stored by either path, append at every later moment answers with the stored receipt, which names its sequence and snapshot, whatever predecessor the retry expects, and changes nothing |
| Retries.CommitRace | src/server/state-plane/memory-commits.ts:405-407 | a writer that prepared before the event got in is answered the same way when it comes to publish |
| Retries.IdNeverReused | src/server/state-plane/memory-commits.ts:379-390 | once an event id is stored with one payload, append and appendBatch refuse it with any other at every later moment |
| Retries.SubmittedIsStored | shared/drop/branch-batch.ts:126-142 | after a batch that succeeds every event of its envelope is stored with its payload, repeated mentions included |
| Retries.AcceptedIsStored | src/server/state-plane/memory-commits.ts:442-499 | the same for an accepted attempt of appendBatch, whatever was published between its capture and its publication |
| Retries.BatchRetry | src/server/state-plane/memory-commits.ts:442-499 | once the events of an envelope are stored, by either path, a routed appendBatch at every later moment answers with their original sequences and snapshots and leaves the branch as it is, if the head it captured is still there |
| Retries.GivesUpOnlyUnderContention | src/server/state-plane/sqlite-commits.ts:979-1070 | the loop of attempts, of any length, ends in state_unavailable only if other writers have published at least one snapshot during each attempt |
| Retries.FactRetryLater | src/server/state-plane/memory-commits.ts:612-632 | a stored fact answers every later request that differs at most in assigned fields with its original receipt, after any document edits, and nothing changes |
| Retries.FactResubmitted | src/server/state-plane/memory-commits.ts:612-632 | a request that appendRuntimeFact accepted is answered, at every later moment of the run and without any condition on it, with the first receipt, and nothing changes |
| CommitPaths.PreparedAlike | shared/drop/branch-commit.ts:56-113 | for a new event at the head it expects, the commit path and a batch of that one event are refused with the same code, or prepare the same branch, version, snapshot, text and event; only the sequence in the receipt and the outbox row differ |
| CommitPaths.PathsAgree | src/server/state-plane/memory-commits.ts:379-499 | the same for the operations: append and appendBatch of one new event answer alike, and the stored documents differ in that receipt field and outbox row alone |
| CommitPaths.IncoherentRefused | shared/drop/branch-commit.ts:28-37 | neither path prepares anything against a head whose branch, root or version fields disagree, or against another branch's head |
| CommitPaths.CommitAccepts | shared/drop/branch-commit.ts:28-60 | on a reachable head a commit is accepted exactly for this branch, placement and version, at a valid time, while there are numbers left |
| CommitPaths.BatchAccepts | shared/drop/branch-batch.ts:88-175 | the same for an envelope, with its conditions on payloads and stated predecessors |
| WriteAccess.PutCapturesExactly | shared/drop/branch-nullmem.ts:242-270 | a put is captured exactly when it names its actor and its record is a fact or procedure of this branch with a string id and a numeric time |
| WriteAccess.FactCapturesExactly | shared/drop/branch-runtime-facts.ts:131-155 | a fact is captured exactly when it names its actor, has the fields of its kind, and its source is this branch |
| WriteAccess.PutAnswers | shared/drop/branch-nullmem.ts:293-303 | in every reachable state a routed put is forbidden exactly to actors that are neither owner nor writer, and succeeds for those two at every valid time below the last revision |
| WriteAccess.DeleteAnswers | shared/drop/branch-nullmem.ts:293-303 | the same for deletion |
| WriteAccess.PutStores | src/server/state-plane/memory-commits.ts:541-570 | a put stores the requested record with its time under kind and id, adds one entry with actor, time and head, and leaves all else alone |
| WriteAccess.DeleteStores | src/server/state-plane/memory-commits.ts:573-602 | a deletion removes the records of its id, of either kind, and nothing else, and adds one entry |
| WriteAccess.FactAnswers | shared/drop/branch-runtime-facts.ts:255-282 | a routed fact is forbidden exactly to actors that are neither owner nor writer; those two may repeat a stored request, and a new one succeeds exactly with a free name, an active branch, the current content hash and a valid time; each refusal has its exact reason |
| WriteAccess.FactStores | src/server/state-plane/memory-commits.ts:612-659 | a new fact is stored as requested with the next sequence, the time and the head's snapshot, and nothing else changes |
| RunResults.InitializeRetry | src/server/state-plane/memory-commits.ts:340-347 | an initialized branch acknowledges exactly its own initialization again, with the original receipt |
| RunResults.ReservationDecides | shared/drop/branch-lifecycle.ts:331-347 | the first reservation decides for good: at every later moment the branch, once live, has its base drop, mode, owner, writer account, writer client and creation time, and is active |
| RunResults.ReserveAnswers | src/server/state-plane/memory-commits.ts:284-321 | a free branch is reserved at every valid time; afterwards exactly the same principals at the same place are told of the standing reservation |
| RunResults.LookupAnswers | src/server/state-plane/memory-commits.ts:248-271 | in every reachable state a branch is found exactly at its placement, and otherwise reported as absent, pending or routed wrongly, never as corrupt |
| RunResults.SeedRefuses | src/server/state-plane/memory-commits.ts:302-303 | a seeded branch is neither reserved nor initialized |
| RunResults.MemoryNeverCorrupt | src/server/state-plane/memory-commits.ts:501-523 | the integrity check passes in every reachable state |
| RunResults.NeverCorrupt | shared/drop/branch-state.ts:183-257 | no operation of any run reports corruption, the registration of its outbox row included |
| RunResults.LiveReachable | src/server/state-plane/memory-commits.ts:284-377 | a reservation and its initialization bring any branch to life with any content, for the principals of the reserve command |
| RunResults.RunBounds | shared/drop/branch-lifecycle.ts:331-346 | snapshot zero exactly with sequence -1, no snapshot without an event, coherent heads; event sequences, snapshot ids and versions, receipts, batch totals, fact sequences and memory revisions are all safe integers within the head's |
| OutboxIds.NoIdTwice | src/server/state-plane/memory-commits.ts:169-192 | there are as many outbox ids as snapshots after the first, facts and memory revisions together: no two rows of a branch share one |
| OutboxIds.BranchesApart | src/server/state-plane/memory-commits.ts:169-192 | different branches share no outbox id, of any kind |
| OutboxIds.IdsKept | src/server/state-plane/memory-commits.ts:169-192 | ids are never withdrawn, so both hold for every id ever published |
| OutboxIds.EveryRowRegistered | src/server/state-plane/memory-commits.ts:169-192 | delivery knows exactly the published rows, as many as snapshots after the first, facts and revisions |
| RowNames.NamesApart | shared/drop/branch-commit.ts:102-107 | an outbox id names one kind and one target |
| BranchOwner.Create | src/server/state-plane/memory-commits.ts:196-246 | accepts exactly seeds that are empty timelines on this routing version with targets of their own |
| BranchOwner.BranchOwner.constructor | src/server/state-plane/memory-commits.ts:225-246 | every seeded branch starts from its seed, every other one empty |
| BranchOwner.BranchOwner.ReserveBranch | src/server/state-plane/memory-commits.ts:284-321 | the reservation step of the run, with its answer; every other branch and all tickets are untouched |
| BranchOwner.BranchOwner.BeginInitialize | src/server/state-plane/memory-commits.ts:324-335 | keeps a ticket of the command and what was prepared for it at this moment, changing no branch |
| BranchOwner.BranchOwner.BeginCommit | src/server/state-plane/memory-commits.ts:391-404 | keeps a ticket of the command and what was prepared for it at this moment, changing no branch |
| BranchOwner.BranchOwner.BeginBatch | src/server/state-plane/memory-commits.ts:442-461 | keeps a ticket of the command and what was prepared for it at this moment, changing no branch |
| BranchOwner.BranchOwner.Finish | src/server/state-plane/memory-commits.ts:405-439 | rechecks and publishes, or refuses, as the run step that captured at the ticket's moment, with its receipt or result; every other branch and ticket is untouched |
| BranchOwner.BranchOwner.AppendRuntimeFact | src/server/state-plane/memory-commits.ts:612-659 | the fact step of the run, with its receipt; every other branch is untouched |
| BranchOwner.BranchOwner.PutNullMem | src/server/state-plane/memory-commits.ts:541-570 | integrity check, authorisation and mutation as the put step of the run, with its result; every other branch is untouched |
| BranchOwner.BranchOwner.DeleteNullMem | src/server/state-plane/memory-commits.ts:573-602 | the same for deletion |
| BranchOwner.BranchOwner.QueryNullMem | src/server/state-plane/memory-commits.ts:526-538 | succeeds for exactly the well-formed, routed queries; the answer is the selection of the live records at the live head and revision, and passes the client's check |
| BranchOwner.OwnIdsOnly | src/server/state-plane/memory-commits.ts:169-180 | in the one delivery map of all branches, an id that names a branch is registered for that branch and kind only |
| BranchOwner.BranchOwner.AlwaysSafe | src/server/state-plane/memory-commits.ts:154-167 | in whatever order the methods are called, every branch keeps the joint invariant and all its history |
| Waterfall.Sweep | scripts/profiling/waterfall.ts:30-35 | for intervals sorted by start only, the sweep computes the exact length of their union |
| Waterfall.MeasureUnique | scripts/profiling/waterfall.ts:30-35 | a point set has one length, whatever way it is cut into separated intervals |
| Waterfall.ClippedChildren | scripts/profiling/waterfall.ts:21-29 | the clipped children cover exactly the points of the span that some child covers |
| Waterfall.Waterfall | scripts/profiling/waterfall.ts:4-45 | one row per event; exclusive and covered time add up to the duration and lie between zero and it, or nothing is claimed for an incomplete batch |
| Waterfall.RowUnique | scripts/profiling/waterfall.ts:19-45 | the row of an event is determined |
| PackageClosure.ScanImports | scripts/check-cli-package-boundary.ts:209-226 | queues exactly the in-repository relative imports of a file and reports exactly its unresolved and escaping ones |
| PackageClosure.Visit | scripts/check-cli-package-boundary.ts:198-226 | what one newly visited path contributes, by the branch it falls in |
| PackageClosure.Closure | scripts/check-cli-package-boundary.ts:187-227 | the worklist terminates on every finite import graph, cycles included; visited is exactly what the entry points reach, and the missing set exactly the reached existing files that are not packed |

## Left out

- BranchOwner.BranchOwner.Finish: one attempt per ticket, and a changed head is reported as unavailable; the loop of 32 attempts around a batch is `Retries.AppendBatch`, over the states of a run. The in-memory owner compares whole states where the SQLite owner compares versions; the model compares versions, the weaker check. The content and receipt rechecks that SQLite adds after it cannot fail, by RunResults.RecheckIsEnough, and are not written out.
- NullMemQuery.QueryRecords: lower casing, the searched text of a record, the rounding of a sum and locale comparison are parameters, the comparison with the laws of a total preorder.
- Waterfall.Waterfall: milliseconds are real numbers; floating-point rounding and the verdict of validBatch are not modelled.
- Zod schemas: only the fields that the modelled code reads are required of facts, records and commands; length limits, token trimming and digest syntax are not modelled.
- serializeCanonicalJson (shared/drop/types.ts:231-255) assigns sorted keys to a `{}`, so integer-like keys come out first, in numeric order, and a `__proto__` key would be lost; the model uses one key order for both serializers, so the equality results about event payloads and initialization intents hold if the schemas drop a `__proto__` key.
- Native operation payloads are carried by the text they decode to; base64 and invalid UTF-8 are not modelled.
- Getters with side effects during an object walk; the walk sees a fixed heap.
- Paged reads (readEvents, readRuntimeFacts, listSnapshots): each copies a range of maps whose contents the run invariant fixes.
- SQLite rows, Durable Objects, R2, D1, RPC and request handlers.
- Outbox delivery after registration: leases, acknowledgement and retry of published rows.
- Branch migration, account authentication and signatures.
- User interface, command line, profiling drivers and other scripts.
