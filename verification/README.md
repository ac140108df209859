# TestWeaver, verified

A Dafny model of the `testweaver` package: how it captures the output of a native
executable, redacts it, stores artifacts under their digest, seals records over canonical
JSON, keeps them in an append-only authority store, measures and compares runs, packs them
into offline bundles, and chains the receipts of a Skill evolution.

| File | Component |
|---|---|
| `Bytes.dfy`, `Sequences.dfy` | shared: raw bytes and their digest; lists without repetition |
| `Capture.dfy` | the two drain threads of the executor and the caller that copies their buffers |
| `Redaction.dfy` | the literal stage of the redaction |
| `ArtifactStore.dfy` | concurrent content-addressed writes, with crashes |
| `Json.dfy`, `Canonical.dfy`, `Sealing.dfy` | canonical JSON, its reader, and seals |
| `Records.dfy`, `Tables.dfy`, `AuthorityStore.dfy` | records, tables with their constraints, transactions |
| `EventLog.dfy`, `Hitl.dfy`, `CapsuleColumns.dfy`, `Capsules.dfy`, `Oracles.dfy` | the domain authorities over one store |
| `NativeEvents.dfy`, `Projector.dfy` | from raw native events to events of the log |
| `Authority.dfy` | every run of all of them together |
| `Numbers.dfy`, `Usage.dfy`, `LiveReceipt.dfy`, `PairedMetrics.dfy` | usage, normalized rows, paired comparison |
| `Names.dfy`, `ChecksumText.dfy`, `Bundle.dfy` | sorted names, checksum text, offline bundles |
| `Encoding.dfy`, `Readback.dfy` | exact readbacks and their ledger |
| `SkillOps.dfy`, `SkillChain.dfy` | the records and the lifecycle of a Skill evolution, and its six receipt-chained stages |
| `XTrace.dfy`, `Claims.dfy` | the bounded read-back loop; de-duplication of claims |

How the model is set up:

- A concurrent component is a step function over a state with a program counter per thread
  or call; one action is one indivisible access to shared data, and a theorem about a list
  of actions is a theorem about an interleaving.
- A database is one list of rows in insertion order, committed and working. What the
  domain classes do to it is stated by functions on that list, and the methods of the
  classes are proved against those functions.
- SHA-256 is a function about which nothing is assumed except, where a theorem says
  `Ideal`, that no two inputs share a digest. The format test on digests, case folding and
  the test for white space are parameters.
- Numbers are integers and reals; Python's `1 == 1.0` and the difference of type are kept.

Results that a reader of the code might not expect, each with its exact condition:

- `Capture.UnflaggedCountsExactlyWhen`, `Capture.UnflaggedCutExactlyWhen`: when the join of the
  drain threads times out, a report can hold counts above the limit, or a buffer shorter than
  its count, while its flag is not set. The first can happen exactly when the streams together
  are longer than the limit, the second exactly when that stream is not empty. After a
  completed join the report is exact.
- `Redaction.ReplaceAlwaysRemovesIffSelfClean`: `str.replace` can leave the secret behind, by
  building it anew from the token and what is left around it. For one secret the condition is
  exact; `SelfCleanIsNotEnoughForTwo` shows why a list needs the stronger one.
- `ArtifactStore.PoisonIsForever`: a write that stops early leaves a file that blocks its content
  for good. `CallsRaiseExactlyWhen`: even if every write succeeds, a call can raise exactly when
  its name holds a wrong file, or is free while another call writes the same, not empty, bytes.
- `Usage.TotalsAddExactlyWhen`: totals of concatenated usage lists do not always add up;
  `TotalsNeedNotAdd` gives two lists.
- `SkillChain.ReplayableExactlyWhen`: a receipt whose ledger holds bytes its records name under
  two references passes its check and cannot be replayed. `StrandedExactlyWhen` says when a stage
  emits such a receipt, and `RepeatedTraceStrands` that every accepted preparation has a variant
  that does.
- `SkillChain.UnattestedEmitNothing`: the token the stages themselves issue is never a verified
  one, so as they stand no stage emits a receipt, whatever it is given. Everything else about
  the chain is proved for an arbitrary issuer of tokens.
- `XTrace.NoNapIsWastedExactlyWhen`: the loop can sleep after the last attempt it makes, unless
  it is allowed one attempt only.
- `NativeEvents.SameBytesAgain`: projecting the same raw bytes again is a repetition exactly when
  they are vouched for in the same way, and otherwise a conflict; `AttestingLaterConflicts` gives
  such an attestation for every record projected without one.

## Model

| member | source | states |
|---|---|---|
| `Capture.StepKeepsInv` | testweaver/adapters/executor.py:204-216 | every action of either drain or of the caller keeps: the buffers hold exactly the decided input cut at the limit, the shared total is the buffered bytes less what is owed, the flag implies an exceeded limit, and a total above the limit will be noticed |
| `Capture.ReportIsBounded` | testweaver/adapters/executor.py:198-264 | in every interleaving, with the join completed or not, the two copied buffers together stay within the limit although they are copied at different moments; each is a prefix of its stream; a set flag is never false |
| `Capture.FlagIsExactWhenQuiescent` | testweaver/adapters/executor.py:205-216 | whenever neither drain is between counting and releasing the lock, the flag is set exactly when the bytes read exceed the limit, and unset means nothing was cut |
| `Capture.ReportIsExactAfterJoin` | testweaver/adapters/executor.py:252-264 | after a completed join the report's flag and counts agree, and without the flag its buffers are everything that was read |
| `Capture.EndOfFileMeansWholeStream` | testweaver/adapters/executor.py:206-208 | a drain that ended at end of file has read its whole stream |
| `Capture.UnflaggedCountsExactlyWhen` | testweaver/adapters/executor.py:252-264 | for every limit and all streams, some interleaving returns counts above the limit without the flag if and only if the streams together are longer than the limit |
| `Capture.UnflaggedCutExactlyWhen` | testweaver/adapters/executor.py:252-264 | some interleaving returns, without the flag, a buffer shorter than its count if and only if that stream is not empty, even within the limit |
| `Capture.StepUsesWork` | testweaver/adapters/executor.py:204-216 | every enabled action uses up a natural measure of the remaining work |
| `Capture.SchedulesAreFinite` | testweaver/adapters/executor.py:204-216 | no interleaving makes more effective steps than the measure allows |
| `Capture.SomeDrainCanMove` | testweaver/adapters/executor.py:210-216 | the lock never leaves both drains stuck |
| `Redaction.ReplaceCreatesNothing` | testweaver/adapters/executor.py:63-66 | replacing one secret creates no occurrence of another that shares nothing with the token |
| `Redaction.ReplaceAlwaysRemovesIffSelfClean` | testweaver/adapters/executor.py:63-66 | replacement removes one secret from every text if and only if the secret cannot be completed by the end or the beginning of a token |
| `Redaction.RedactAllRemoves` | testweaver/adapters/executor.py:63-66 | after the whole stage no processed secret is left, despite overlaps, nesting and earlier or later replacements |
| `Redaction.SelfCleanIsNotEnoughForTwo` | testweaver/adapters/executor.py:63-66 | nine opening brackets and any plain eight-character secret are each always removed alone, yet processing both, in the order the code uses, leaves the brackets: the token of the second completes them |
| `Redaction.PlainSecretsAreTokenFree` | testweaver/adapters/executor.py:65-66 | a secret of eight or more characters without brackets, other than the word in the token, shares nothing with the token |
| `Redaction.CleanTextIsKept` | testweaver/adapters/executor.py:63-66 | text without secrets passes unchanged, so redacting twice is redacting once |
| `Redaction.AloneSecretBecomesToken` | testweaver/adapters/executor.py:65-66 | longest first: a secret standing alone becomes exactly one token |
| `Redaction.ShortestFirstLeavesTheRest` | testweaver/adapters/executor.py:65-66 | the opposite order would leave the rest of a longer secret in clear |
| `Redaction.Redact` | testweaver/adapters/executor.py:63-66 | the loop removes every listed secret of length eight or more that shares nothing with the token, and keeps text that held none |
| `ArtifactStore.StepKeepsInv` | testweaver/adapters/artifact_store.py:46-146 | every system call keeps: one writer a name, its file is the written prefix, what a verifier has read is a prefix of the file, a returned call's file is complete |
| `ArtifactStore.CompleteIsFinal` | testweaver/adapters/artifact_store.py:109-127 | no step changes a file whose content has the digest it is named by |
| `ArtifactStore.ReturnedNamesItsContent` | testweaver/adapters/artifact_store.py:74-146 | from any directory and under any interleaving with errors and kills, a call that returned names a file that holds its whole content then and in every later state |
| `ArtifactStore.SameReferenceSameBytes` | testweaver/adapters/artifact_store.py:94-146 | two calls return one name if and only if they were given one content |
| `ArtifactStore.PoisonIsForever` | testweaver/adapters/artifact_store.py:53-71 | a wrong file nobody is writing stays, and no call for its content returns in any continuation |
| `ArtifactStore.StoppingEarlyPoisons` | testweaver/adapters/artifact_store.py:116-127 | a write that fails or is killed before its last byte leaves such a file |
| `ArtifactStore.CallsRaiseExactlyWhen` | testweaver/adapters/artifact_store.py:46-146 | from any directory and for any calls, with every write succeeding, some interleaving makes a call raise if and only if its name holds a wrong file, or is free while its content is not empty and another call has the same content |
| `ArtifactStore.LosingTheRaceRaises` | testweaver/adapters/artifact_store.py:53-58 | of two calls for one content over a free name, one can raise while the other returns if and only if the content is not empty |
| `ArtifactStore.Directory.HashFile` | testweaver/adapters/artifact_store.py:35-43 | reading in chunks of any admissible size hashes the whole file |
| `ArtifactStore.Directory.WriteArtifact` | testweaver/adapters/artifact_store.py:74-146 | without interference a call returns exactly when the name was free and the write succeeds, or already held this content; the new directory is stated for every case |
| `Json.ReadEmit` | testweaver/contracts/validator.py:50-56 | printed JSON reads back as the value it was printed from, whatever follows it |
| `Json.LoadsCanonicalText` | testweaver/authority/store.py:121-130 | canonical text loads as the value with its keys sorted |
| `Canonical.SortSorts` | testweaver/contracts/validator.py:50-54 | sorting by key gives a sorted list of the same members |
| `Canonical.CanonKeepsMeaning` | testweaver/contracts/validator.py:50-54 | sorting keys at every depth keeps the meaning |
| `Canonical.SameTextIffSameMeaning` | testweaver/contracts/validator.py:47-57 | two values have one canonical text exactly when they are equal up to the order of keys |
| `Canonical.LoadsKeepsMeaning` | testweaver/authority/store.py:485-488 | loading a stored text gives back the meaning that was stored |
| `Sealing.SealThenCheck` | testweaver/authority/store.py:137-150 | sealing a record makes its check succeed exactly when the content may be stored, and sealing twice is sealing once |
| `Sealing.SafeDependsOnMeaning` | testweaver/authority/store.py:91-109 | whether content may be stored does not depend on the order of keys |
| `Sealing.SealBindsMeaning` | testweaver/authority/store.py:144-150 | a record carrying the seal of another passes the check if and only if it means the same |
| `Sealing.OtherSealFails` | testweaver/authority/store.py:144-150 | the same content under another seal fails |
| `Records.CreatedEventIsSealed` | testweaver/authority/store.py:177-211 | the constructor's seal is accepted for every content that may be stored |
| `Records.HashFixesEvent` | testweaver/authority/store.py:213-254 | two valid events with one content hash have the same fields and the same payload up to the order of keys |
| `Records.CanonicalPayloadIsValid` | testweaver/authority/store.py:234-254 | sorting the payload's keys leaves a valid event valid |
| `Tables.BoundIsPresent` | testweaver/authority/store.py:365-373 | in a store without clashes an insert whose identity and hash are present changes nothing and reports False |
| `Tables.InsertIsRefusedExactly` | testweaver/authority/store.py:365-391 | in a store without clashes an insert is refused exactly when the record is not stored and some row has its identity or one of its unique columns |
| `Tables.BatchFacts` | testweaver/authority/store.py:533-556 | a successful batch keeps all rows in place, adds as many as it reports, binds every record of the batch and keeps every unique constraint |
| `Tables.FlagsAreFirstSights` | testweaver/authority/store.py:533-556 | flag i is True exactly when its identity was neither stored before nor earlier in the batch |
| `Tables.RepeatedBatchIsIdle` | testweaver/authority/store.py:533-556 | repeating a successful batch changes nothing and reports only False |
| `Tables.PrefixFailureFails` | testweaver/authority/store.py:307-316 | a conflict anywhere fails the batch, whatever follows |
| `Store.AuthorityStore.constructor` | testweaver/authority/store.py:275-280 | a new store is empty with no transaction open |
| `Store.AuthorityStore.Insert` | testweaver/authority/store.py:344-391 | one idempotent insert, seen in the working state, committed only on request and only if a row was added |
| `Store.AuthorityStore.Commit` | testweaver/authority/store.py:306-316 | the working state becomes the committed one |
| `Store.AuthorityStore.Rollback` | testweaver/authority/store.py:306-316 | the working state is thrown away |
| `Store.AuthorityStore.AppendRecords` | testweaver/authority/store.py:533-556 | the batch is atomic: the left fold of single inserts is committed, or nothing is |
| `Store.AuthorityStore.AppendRecord` | testweaver/authority/store.py:508-531 | one record is a batch of one |
| `Store.AuthorityStore.AppendEvent` | testweaver/authority/store.py:393-460 | the committed store becomes exactly what the event log's rules say, and stays as it was on error |
| `EventLog.AppendKeepsLog` | testweaver/authority/store.py:393-460 | an append adds its row or nothing, and keeps identifiers and keys unique, every aggregate's revisions exactly 1..n, and every row the row of a valid event |
| `EventLog.AppendAcceptsExactly` | testweaver/authority/store.py:410-420 | a valid event with a new identifier and key is accepted exactly when its revision is the next of its aggregate, and then nothing can clash |
| `EventLog.ReappendIsIdle` | testweaver/authority/store.py:395-417 | appending any stored event again, however old, is a no-op that returns False |
| `EventLog.SuccessMeansStored` | testweaver/authority/store.py:393-460 | when an append returns, the row of this very event is stored, whether inserted now or found |
| `EventLog.TakenKeyIsConflict` | testweaver/authority/store.py:403-409 | a different event with the idempotency key of a stored one is always a conflict, whatever its identifier |
| `EventLog.StoredEventReadsBack` | testweaver/authority/store.py:485-506 | a stored event reads back valid, with the same fields and the same payload up to key order, and is the same row again |
| `EventLog.ReadingNeverRaises` | testweaver/authority/store.py:484-506 | every row of a kept log reads back as a valid event whose row it is |
| `Hitl.LawfulStep` | testweaver/authority/hitl.py:327-347 | the phase guards extend a history of the form PAUSE STOP*, PAUSE DENY STOP*, PAUSE APPROVE STOP* or PAUSE APPROVE RESUME STOP* to one of that form |
| `Hitl.RevisionOrderIsInsertionOrder` | testweaver/authority/hitl.py:320-325 | reading an approval ordered by revision is reading it in the order it was written |
| `Hitl.AppendKeepsHitl` | testweaver/authority/hitl.py:311-347 | every append keeps each approval's chain in that form, linked by strictly growing revisions, in one lineage, and with a matching valid attestation for every decision and resume |
| `Hitl.AppendAcceptsExactly` | testweaver/authority/hitl.py:327-399 | a valid new record, with its readback where one is needed, is accepted exactly when its approval's chain stays linked and of the lawful form with it |
| `Hitl.NoDecisionWithoutReadback` | testweaver/authority/hitl.py:413-441 | without a valid matching readback no new decision or resume is accepted |
| `Hitl.SuccessBinds` | testweaver/authority/hitl.py:311-349 | when an append returns, the record's identity is stored with its hash |
| `Hitl.BoundIsIdle` | testweaver/authority/hitl.py:313-320 | repeating a stored record is a no-op whatever the verifier would say |
| `Hitl.HitlAuthority.constructor` | testweaver/authority/hitl.py:306-309 | the authority works on the store it is given |
| `Hitl.HitlAuthority.Append` | testweaver/authority/hitl.py:311-399 | the committed store becomes exactly what the rules of the chain say, or is untouched |
| `Capsules.KeyIsInjective` | testweaver/authority/capsule.py:290 | the key made of identifier, colon and revision tells revisions apart even when identifiers contain colons |
| `Capsules.PersistKeepsCapsules` | testweaver/authority/capsule.py:288-360 | persisting keeps every capsule's revisions exactly 1..n, every key right and every hit founded |
| `Capsules.PersistAcceptsExactly` | testweaver/authority/capsule.py:299-307 | a valid capsule with a new key is accepted exactly when it is the next revision and its key is short enough to be a reference |
| `Capsules.RecordHitKeepsCapsules` | testweaver/authority/capsule.py:400-445 | a recorded hit names a stored capsule revision with the same hash and fingerprint, and all rules are kept |
| `Capsules.HitsAreRefusedExactly` | testweaver/authority/capsule.py:401-409 | a hit is refused as an error exactly when it is invalid or no stored capsule revision is what it names |
| `Capsules.RevisionIsFound` | testweaver/authority/capsule.py:402-405 | a stored revision is the one its number finds |
| `Capsules.BoundIsIdle` | testweaver/authority/capsule.py:291-298 | persisting a stored revision again is a no-op |
| `Capsules.SearchIsExact` | testweaver/authority/capsule.py:362-398 | a search returns every matching capsule as often as it is stored, nothing else, ordered by revision and identifier |
| `Capsules.SearchFindsEveryPersisted` | testweaver/authority/capsule.py:362-383 | over rows the store accepted, a search finds exactly the capsules with the fingerprint and the kind: the two fail-closed conditions on the columns exclude nothing |
| `Capsules.SearchReadsBack` | testweaver/authority/capsule.py:381-398 | a search never raises on what the store accepted: every row it finds reads back as the valid capsule that was stored |
| `CapsuleColumns.CapsuleReadsBack` | testweaver/authority/capsule.py:308-398 | a capsule written to its columns, three of them canonical JSON text, reads back as itself |
| `CapsuleColumns.EmptyEvidenceText` | testweaver/authority/capsule.py:380 | the text the query excludes is that of an empty list of references and of no other |
| `Capsules.CapsuleAuthority.constructor` | testweaver/authority/capsule.py:284-286 | the authority works on the store it is given |
| `Capsules.CapsuleAuthority.PersistCapsule` | testweaver/authority/capsule.py:288-360 | the committed store becomes exactly what the rules of capsule revisions say, or is untouched |
| `Capsules.CapsuleAuthority.RecordCapsuleHit` | testweaver/authority/capsule.py:400-445 | the committed store gains the hit, or is untouched |
| `Oracles.OraclesOfOneRunAreIndependent` | testweaver/authority/schema.sql:100-122 | in every store two results of one run differ in kind, identity, process and result reference |
| `Oracles.AtMostOnePairPerRun` | testweaver/authority/schema.sql:118 | a run never holds a third result |
| `Oracles.PersistPairBindsBoth` | testweaver/authority/oracle.py:248-250 | after a successful pair both results are bound, rows grow by the True flags, and the same pair again reports False twice |
| `Oracles.PersistBinds` | testweaver/authority/oracle.py:244-246 | a persisted result is bound to its hash and nothing else changes |
| `Oracles.FreshPairIsStored` | testweaver/authority/oracle.py:173-190 | a valid pair for a run without results and with free identifiers is stored whole |
| `Oracles.OracleAuthority.constructor` | testweaver/authority/oracle.py:194-195 | the authority works on the store it is given |
| `Oracles.OracleAuthority.PersistResult` | testweaver/authority/oracle.py:244-246 | the committed store gains the result, or is untouched |
| `Oracles.OracleAuthority.PersistBoth` | testweaver/authority/oracle.py:248-250 | the committed store gains the pair as a whole, or is untouched |
| `Projector.ProjectKeepsLog` | testweaver/integrations/projector.py:330-344 | projecting any records keeps the log and only appends, also when it stops at an error |
| `Projector.RepeatIsIdle` | testweaver/integrations/projector.py:330-344 | repeating a run right away, successful or not, gives the same outcome and changes nothing |
| `Projector.LaterRepeatIsIdle` | testweaver/integrations/projector.py:330-344 | repeating a successful run in any later store returns the same events and changes nothing |
| `Projector.NativeEventProjector.constructor` | testweaver/integrations/projector.py:318-328 | the projector works on the store and materializer it is given |
| `Projector.NativeEventProjector.Project` | testweaver/integrations/projector.py:330-337 | one record is projected as a run of one, including what is committed on error |
| `Projector.NativeEventProjector.ProjectMany` | testweaver/integrations/projector.py:339-344 | the loop commits record by record and leaves exactly the rows and the result of the specified run |
| `NativeEvents.KeyIsOfTheBytes` | testweaver/integrations/projector.py:346-418 | the idempotency key and the request hash of a projected event are functions of its raw bytes, and equal only for equal bytes |
| `NativeEvents.KeyTakenExactlyWhen` | testweaver/integrations/projector.py:330-337 | an event with the key of a stored one is a repetition exactly when it has its content hash, and otherwise a conflict |
| `NativeEvents.SameBytesAgain` | testweaver/integrations/projector.py:420-477 | the same bytes projected again, perhaps by a projector configured otherwise, are a repetition exactly when classification, attestation and Oracle readback are judged alike, and otherwise a conflict |
| `NativeEvents.SameBytesInOneRun` | testweaver/integrations/projector.py:339-344 | a run over the same bytes twice succeeds exactly when both are vouched for in the same way, and keeps the first event either way |
| `NativeEvents.AttestingLaterConflicts` | testweaver/integrations/projector.py:420-449 | for every record projected unattested there is a collector receipt with which it projects too, and projecting it then is a conflict |
| `Authority.ApplyKeepsInv` | testweaver/authority/store.py:268-280 | any call on the store, accepted or refused, keeps the rules of all tables and every row |
| `Authority.EveryReachableStore` | testweaver/authority/store.py:282-305 | from an empty store, every run of calls keeps unique identifiers, revision chains, lawful approvals, founded hits and independent Oracles |
| `Authority.SuccessIsDone` | testweaver/authority/store.py:393-460 | a call that returned normally has its rows stored |
| `Authority.RetryIsIdle` | testweaver/authority/store.py:344-391 | exactly once under retries: any call that succeeded in a reachable store, repeated after any further calls, returns normally, reports False and changes nothing |
| `Numbers.SumPermutes` | testweaver/evaluation/paired_metrics.py:314-317 | a sum depends only on which values there are and how often |
| `Usage.CollectRecords` | testweaver/evaluation/native_live_receipt.py:524-575 | the nested loops collect exactly the records of the tree, left to right, or raise exactly when it does |
| `Usage.RecordReadsItsFields` | testweaver/evaluation/native_live_receipt.py:540-566 | a record takes every number from the key that means it, in either token shape, and never mixes the shapes |
| `Usage.NestingIsIrrelevant` | testweaver/evaluation/native_live_receipt.py:524-575 | splicing a nested list or a named group into the list around it leaves the records, and whether it is accepted, unchanged |
| `Usage.UsageIgnoresChildOrder` | testweaver/evaluation/native_live_receipt.py:498-522 | reordering a usage list changes neither acceptance nor the normalized usage |
| `Usage.NormalizeIgnoresOrder` | testweaver/evaluation/native_live_receipt.py:498-522 | normalization depends only on the multiset of records |
| `Usage.ConcatenationAdds` | testweaver/evaluation/native_live_receipt.py:609-613 | calls, input, output and cost of a concatenation are the sums of the parts, NOT_AVAILABLE absorbing |
| `Usage.TotalIsInputPlusOutput` | testweaver/evaluation/native_live_receipt.py:509-514 | the total is input plus output whenever both are available |
| `Usage.TotalsAddExactlyWhen` | testweaver/evaluation/native_live_receipt.py:511-514 | totals of the parts add up exactly when both parts have complete input and output or neither has, or the part that has agrees with its declared totals, or the other has no total |
| `Usage.TotalsNeedNotAdd` | testweaver/evaluation/native_live_receipt.py:498-522 | for all counts, two one-entry lists the code accepts, one with input, output and a declared total, one with a total only: their totals add up if and only if the declared total is input plus output |
| `Usage.RecordsAreSane` | testweaver/evaluation/native_live_receipt.py:524-606 | no accepted record holds a negative number or a fractional token count |
| `LiveReceipt.BuiltRowsCompare` | testweaver/evaluation/native_live_receipt.py:282-307 | every row built from an accepted export validates and compares with itself with all deltas zero or NOT_AVAILABLE, so the handler for a pairing error never fires |
| `LiveReceipt.RowReportsWhatWasObserved` | testweaver/evaluation/native_live_receipt.py:257-296 | a row's tokens are the usage's, its cost agrees with the explicit and the usage cost, its latency is the export's, and a supplied metric appears with its own value |
| `LiveReceipt.AttestationBindsTheExport` | testweaver/evaluation/native_live_receipt.py:144-185 | an attestation accepted for one export is accepted for another exactly when that one means the same, up to the order of members |
| `LiveReceipt.NormalizeExports` | testweaver/evaluation/native_live_receipt.py:348-400 | a batch is accepted exactly when it is not empty, every export is clean, vouched for if it says so, and normalizes, all identities are distinct and no profile repeats a pairing key; its rows are the exports' rows in order, it is attested exactly when every export is, and misses what any of them misses |
| `LiveReceipt.FourIdsEach` | testweaver/evaluation/native_live_receipt.py:380-385 | the identities compared are four for every export |
| `LiveReceipt.BatchRowsIndex` | testweaver/evaluation/native_live_receipt.py:386-389 | the rows of one profile of an accepted batch never hit a duplicate key |
| `PairedMetrics.BuildIndex` | testweaver/evaluation/paired_metrics.py:241-251 | the loop indexes the runs in order or raises exactly when the specification does |
| `PairedMetrics.IndexSucceedsWhen` | testweaver/evaluation/paired_metrics.py:241-251 | indexing succeeds exactly when every run is valid and no two share a key |
| `PairedMetrics.NormalizedMetricsKeepValues` | testweaver/evaluation/paired_metrics.py:181-217 | normalizing keeps every available value and makes the total the sum of input and output |
| `PairedMetrics.ComparedExactlyWhen` | testweaver/evaluation/paired_metrics.py:106-122 | a comparison is accepted exactly when all runs are valid, no side repeats a key, and both sides have the same keys |
| `PairedMetrics.PairingIsABijection` | testweaver/evaluation/paired_metrics.py:106-122 | an accepted comparison uses every baseline once in order and every treatment once, and each pair holds the identities and metric values of its two runs on their own sides |
| `PairedMetrics.TreatmentOrderIsIrrelevant` | testweaver/evaluation/paired_metrics.py:106-122 | reordering treatments changes neither acceptance nor the result |
| `PairedMetrics.BaselineOrderOnlyReorders` | testweaver/evaluation/paired_metrics.py:106-138 | reordering baselines reorders the pairs and keeps every aggregate |
| `PairedMetrics.SwappingSidesNegatesDeltas` | testweaver/evaluation/paired_metrics.py:254-317 | exchanging the sides is accepted alike, exchanges the columns, and negates every delta and every mean delta |
| `PairedMetrics.MeanDeltaIsDifferenceOfMeans` | testweaver/evaluation/paired_metrics.py:290-320 | when a metric is present on both sides of every pair, its mean delta is the difference of the means |
| `Names.SortForgetsOrder` | testweaver/evaluation/offline_bundle.py:727 | two lists of names sort alike exactly when they hold the same names equally often |
| `ChecksumText.SumsRoundTrip` | scripts/testweaver-hero-bundle.py:578-579 | reading the written checksum text gives exactly the map of names to digests, in order, if and only if every name is a safe path without a line break |
| `ChecksumText.ReadWrittenLine` | scripts/testweaver-hero-bundle.py:746-750 | a written line reads back as its entry for every safe name, with double spaces and a leading dot and slash preserved |
| `ChecksumText.SumsAreInjective` | scripts/testweaver-hero-bundle.py:578-579 | two maps with one text are one map |
| `ChecksumText.ParseSums` | scripts/testweaver-hero-bundle.py:743-753 | the verifier's loop reads the specified map or raises exactly when it should, duplicates included |
| `Bundle.ManifestReadsBack` | testweaver/evaluation/offline_bundle.py:665-681 | the JSON the builder writes as manifest has no key twice and is read by the verifier as exactly the classification, commit, attestation, entries and proof it was made of |
| `Bundle.BuiltBundleVerifies` | testweaver/evaluation/offline_bundle.py:611-803 | what the builder writes is accepted for the same names and commit exactly when sizes (manifest included) and ratios are within the limits and the expected tuple is the proof's, and with the same classification and proof |
| `Bundle.VerifiedNames` | testweaver/evaluation/offline_bundle.py:731-753 | an accepted archive holds exactly the expected names and the manifest, each once |
| `Bundle.SameManifestSameContents` | testweaver/evaluation/offline_bundle.py:771-776 | two accepted archives with one manifest hold the same files, so no member can be changed behind the manifest |
| `Bundle.VerifiedLiveIsProved` | testweaver/evaluation/offline_bundle.py:781-798 | corollary: LIVE is accepted exactly with a proof, whose four components and two distinct Oracles all carry its authority tuple |
| `Bundle.BuiltLiveIsProved` | testweaver/evaluation/offline_bundle.py:622-634 | corollary: the builder records LIVE exactly with such a proof, never on a claim alone |
| `Bundle.CheckSizes` | testweaver/evaluation/offline_bundle.py:735-750 | the accumulating loop accepts exactly the archives within all limits |
| `Bundle.ReadPayload` | testweaver/evaluation/offline_bundle.py:640-648 | the loop over the allowlist succeeds exactly when every name is safe and every file readable, and then holds every file's bytes |
| `Encoding.NumberOfBigEndian` | scripts/testweaver-skill-evolve.py:1037 | a length that fits reads back from its big-endian bytes |
| `Encoding.SplitCombined` | scripts/testweaver-skill-evolve.py:1036-1038 | the concatenation reads back as the list it was made of |
| `Encoding.CombinedSplit` | scripts/testweaver-skill-evolve.py:1036-1038 | nothing but a concatenation reads back |
| `Encoding.CombinedIsInjective` | scripts/testweaver-skill-evolve.py:1036-1038 | the combined bytes determine the list, however it is cut |
| `Encoding.Base64RoundTrip` | scripts/testweaver-skill-evolve.py:125-131 | base64 text decodes to the bytes it was made of (sections 3.5 and 4 of RFC 4648) |
| `Encoding.OneAcceptedText` | scripts/testweaver-skill-evolve.py:190-197 | every byte string has exactly one accepted text |
| `Encoding.LenientDecoderIsNotInjective` | scripts/testweaver-skill-evolve.py:190-197 | without the comparison two texts would decode to the same bytes |
| `Readback.ReadbackRoundTrip` | scripts/testweaver-skill-evolve.py:180-201 | an item decodes to a readback if and only if it is that readback's own form and the readback is not empty, within the limit and hash-bound |
| `Readback.AddIsExact` | scripts/testweaver-skill-evolve.py:220-226 | adding refuses exactly a different readback under the same source and reference, and otherwise appends or does nothing |
| `Readback.AddReadback` | scripts/testweaver-skill-evolve.py:220-226 | the loop over the ledger does just that |
| `Readback.NormalizeYieldsLedger` | scripts/testweaver-skill-evolve.py:204-217 | an accepted list becomes a function from source and reference to bytes that covers every item |
| `Readback.LedgerIsNormal` | scripts/testweaver-skill-evolve.py:204-217 | normalizing a ledger changes nothing: what a receipt carries is what the next stage reads |
| `Readback.ReadbackList` | scripts/testweaver-skill-evolve.py:204-217 | the loop normalizes, or raises exactly when an item does not decode or conflicts |
| `Readback.AddAllOnlyGrows` | scripts/testweaver-skill-evolve.py:220-226 | any number of additions keeps the ledger a function, every entry in place, and holds what was added |
| `Readback.LookupByReference` | scripts/testweaver-skill-evolve.py:229-244 | a lookup by source and reference finds every entry |
| `Readback.LookupByHashExactlyWhen` | scripts/testweaver-skill-evolve.py:229-244 | a lookup by source and hash finds an entry exactly when no other reference of that source has the same hash |
| `Readback.FoundIsAlone` | scripts/testweaver-skill-evolve.py:229-244 | what such a lookup finds is the only reference under which the ledger has these bytes |
| `Readback.SameBytesTwiceAreAmbiguous` | scripts/testweaver-skill-evolve.py:229-244 | two references to the same bytes make that lookup fail |
| `SkillOps.EveryRunIsLinked` | testweaver/skillops/state.py:775-906 | after any run of transitions the filled slots are those of the state, every record is sealed and names the records it rests on by their hashes, a decision's verdict fits the state, the two results differ, and a promotion rests on two passes |
| `SkillOps.EveryRunIsOk` | testweaver/skillops/state.py:305-664 | every record of every run is one its constructor accepts |
| `SkillOps.RunIsReplayed` | scripts/testweaver-skill-evolve.py:404-495 | a lifecycle is rebuilt from its stored records alone: replaying them gives back its skill, state and records |
| `SkillOps.ClosingFixesTheRun` | testweaver/skillops/state.py:876-906 | two complete lifecycles have closing records with one hash if and only if they are the same run: skill, and every record |
| `SkillOps.SkillEvolution.constructor` | testweaver/skillops/state.py:756-762 | a new lifecycle is empty |
| `SkillOps.SkillEvolution.FreezeBaseline` | testweaver/skillops/state.py:775-779 | succeeds and changes the lifecycle exactly as the transition does, and otherwise leaves it |
| `SkillOps.SkillEvolution.TakeAttribution` | testweaver/skillops/state.py:781-791 | the same for an attribution, which must name this baseline, its run and the Skill |
| `SkillOps.SkillEvolution.TakeProposal` | testweaver/skillops/state.py:793-801 | the same for a proposal, which must name this baseline and attribution |
| `SkillOps.SkillEvolution.TakeDecision` | testweaver/skillops/state.py:803-853 | the same for a decision and its verification, which must agree in all twelve fields |
| `SkillOps.SkillEvolution.TakeCanary` | testweaver/skillops/state.py:855-860 | the same for a canary over the frozen dataset and evaluation |
| `SkillOps.SkillEvolution.TakeReevaluation` | testweaver/skillops/state.py:862-874 | the same for a reevaluation, whose result must not be the canary's |
| `SkillOps.SkillEvolution.TakeReceipt` | testweaver/skillops/state.py:876-906 | the same for a closing receipt, which must name every earlier record and may promote only after two passes |
| `SkillChain.StageIsSound` | scripts/testweaver-skill-evolve.py:300-356 | one stage keeps the authority, keeps every readback in place and adds exactly its own, fills only its own slots, and emits a receipt the next stage's check accepts, whose records replay to the state it reports and are each backed by an entry of its ledger that a token vouches for |
| `SkillChain.StepsAreBound` | scripts/testweaver-skill-evolve.py:498-1311 | every binding by hash the lifecycle tests holds of what the stages make: their transitions succeed exactly when the request meets the formats, offers two versions, is about one run, and reevaluates with another result |
| `SkillChain.PrepareAcceptsExactly` | scripts/testweaver-skill-evolve.py:498-598 | the first stage accepts exactly what its tests, the formats and the readbacks allow |
| `SkillChain.StageAcceptsExactly` | scripts/testweaver-skill-evolve.py:318-356 | a later stage accepts exactly an unambiguous receipt of the stage before under the same authority, in the state it needs, with a request that is vouched for, well formed, and brings readbacks that decode and contradict nothing |
| `SkillChain.ReplayableExactlyWhen` | scripts/testweaver-skill-evolve.py:404-495 | a receipt of a chain is replayed, to the very lifecycle it was emitted from, if and only if no bytes its records name are in its ledger under two references |
| `SkillChain.RememberedIsFound` | scripts/testweaver-skill-evolve.py:229-244 | the lookups by reference, of the package and the allowlist, always succeed |
| `SkillChain.StrandedExactlyWhen` | scripts/testweaver-skill-evolve.py:220-244 | a stage emits a replayable receipt if and only if no readback it adds has named bytes that the new ledger holds under another reference |
| `SkillChain.RepeatedTraceStrands` | scripts/testweaver-skill-evolve.py:384-395 | for every accepted preparation and every trace of it, reading the trace's bytes once more under a new reference gives a preparation that is accepted and that no request under any authority can continue |
| `SkillChain.UnattestedEmitNothing` | scripts/testweaver-skill-evolve.py:359-395 | with the unverified token the stages issue, no handler returns a receipt for any request and any previous receipt |
| `SkillChain.ChainIsSound` | scripts/testweaver-skill-evolve.py:270-356 | every receipt of every chain is sound in this sense, is of the last request's stage, and all requests had its authority |
| `SkillChain.ChainOnlyGrows` | scripts/testweaver-skill-evolve.py:300-356 | from any receipt of a chain to any later one nothing recorded is lost or altered |
| `SkillChain.ChainVisitsStagesInOrder` | scripts/testweaver-skill-evolve.py:318-330 | a chain of n requests has visited exactly the first n stages in order |
| `SkillChain.PromotionIsEarned` | scripts/testweaver-skill-evolve.py:1255-1311 | in every chain: past the approval the receipt rests on an approved decision that the authority's receipt for its Matrix event confirms; a conclusion rests on two different results, each live one vouched for by an entry of its ledger, and promotes exactly when both passed, and then both are live |
| `SkillChain.RejectionIsFinal` | testweaver/skillops/state.py:852 | corollary: no stage accepts the receipt of a rejected proposal |
| `XTrace.AnchoredExactlyWhen` | testweaver/integrations/xtrace_readback.py:322-366 | a reply shows the trace exactly when one of its first thousand spans carries the identifier and the last tag for every anchor, over all such spans, has the right value |
| `XTrace.ReadTags` | testweaver/integrations/xtrace_readback.py:322-366 | the nested loops over spans and tags compute the table of last values, and whether a span matched |
| `XTrace.AttemptsAreBounded` | testweaver/integrations/xtrace_readback.py:202-315 | between one and the maximum number of attempts, one lease each, going on only past replies that do not show the trace, stopping at the first that does, and never returning the exhausted receipt |
| `XTrace.BlockedSaysWhy` | testweaver/integrations/xtrace_readback.py:228-289 | a blocked call names the cause its last reply had: no lease, no endpoint, 401 or 403, or any other reply outside the 200s |
| `XTrace.NapsLieBetweenAttempts` | testweaver/integrations/xtrace_readback.py:223-303 | fewer naps than the maximum number of attempts; one less than attempts made, or as many exactly when the script has a pending reply within the budget whose nap uses it up |
| `XTrace.NoNapIsWastedExactlyWhen` | testweaver/integrations/xtrace_readback.py:299-303 | over all honest clocks and replies no nap follows the last attempt made if and only if one attempt is allowed |
| `XTrace.ANapCanBeWasted` | testweaver/integrations/xtrace_readback.py:299-303 | an instance: three attempts allowed, one made, and five seconds slept before returning |
| `XTrace.SleepIsWithinBudget` | testweaver/integrations/xtrace_readback.py:299-303 | when a nap takes at least as long as asked, all naps together stay within the elapsed budget |
| `XTrace.Poll` | testweaver/integrations/xtrace_readback.py:202-320 | the loop with its breaks computes the specified outcome for every script of replies and clock readings |
| `Claims.Deduplicate` | testweaver/contracts/validator.py:69-88 | accepted exactly when every claim is valid and no identifier has two contents; the first claim of each identifier is kept in order |
| `Claims.FirstsAreIncremental` | testweaver/contracts/validator.py:69-88 | de-duplicating before more claims come in makes no difference |
| `Claims.UniqueOrigins` | testweaver/contracts/validator.py:91-104 | every pair of source and evidence hash once, and no other |

## Left out

- Redaction.RedactAllRemoves: for a list of secrets the condition that none shares anything with the token is sufficient; the exact condition is proved for one secret only, and shown not to be enough for two.
- NativeEvents.SameBytesAgain: the shape checks on a raw record and its facts are a parameter that reads bytes; an event, what vouches for it, its key and its hash are modelled.
- Bundle.BuiltBundleVerifies: that the verifier's JSON reader reads, from UTF-8 bytes with a line end, what the proved reader reads is assumed; what the fields of a proof say is a parameter that reads its value.
- LiveReceipt.NormalizeExports: what the members of an export say is a parameter that reads them, and a sealed export holds no fractional number.
- SkillChain.StageAcceptsExactly: what the content of the readbacks has to say (the sealed authority and the allowlist, the Matrix event, the Nacos transcript, activation and canary, Oracle and AgentLoop results) is a test the chain is given; which token issues for a readback is a parameter.
- SkillOps.EveryRunIsLinked: the verification of a close that has been executed elsewhere, which no stage calls.
- SHA-256 itself, deflate, and the byte layout of zip files: digests are functions, an archive is a list of members with their compressed sizes.
- IEEE floats: a sum of finite floats that overflows would make the pairing check fail; over reals it cannot.
- The regular-expression stages of the redaction, and the tests on identifiers and hashes beyond length, white space and control characters.
- Process launch, signals, sockets, credentials and file permissions; what the disk loses when the machine itself stops before a flush.
- SQL text and the placeholder adaptation; `schema.sql` is modelled by its primary keys and unique constraints, not by its column types.
- The side-effect ledger and the result mapper of the adapters: a plain insert-once and a status table.
- The outer Hero bundle's observations and its selection of files: long conjunctions of field tests.
- The order of members inside a JSON text other than by sorted keys, surrogate code points, and Python's limits on integer digits.
