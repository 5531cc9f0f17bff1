# Verification of the blob archive

Blob-hub copies the blobs of a chain into named bundles. A sync thread walks the chain slot by slot, collects the blobs of a
range of slots in a directory, uploads the directory as one bundle and records every slot in a database. A verify thread reads
recorded slots back, compares what was stored with the chain, and either marks slots Verified or uploads their bundle again
under a new name. A server answers queries from the database, the bundle service and a cache.

## How it is modelled

**The protocol is a state machine** (`Protocol.dfy`). A state holds the three tables, the local directories, the volatile
fields of the process, the position of each thread in its code, and history variables. Every action makes at most one
persistent write; a crash may come between any two actions, a restart may choose another bundle length and another verification
mode, and the two threads interleave freely. Each call to the chain, the bundle service or the database may fail, which is the
action `Fail` or `Stop`. `Exec` runs a sequence of actions from the empty database, and `Reachable` is what some sequence leads
to.

**One invariant** (`Invariant.dfy`) holds in every reachable state (`Safety.dfy`). `SyncSteps.dfy`, `VerifySteps.dfy` and
`ReuploadSteps.dfy` show that each action keeps it, and `Frames.dfy` what one thread may change without the other noticing.
`BundleSteps.dfy` collects what each action does to the bundle table. `Theorems.dfy` draws the guarantees from the invariant.
`Progress.dfy` says exactly when the sync thread can save its next slot, and `Verifying.dfy` exactly when the verify thread can
verify its next block. `Races.dfy` and `Replacements.dfy` give runs that show where a stronger guarantee would be false.

**The code refines the protocol** (`Syncer.dfy`, `Threads.dfy`). `BlobSyncer` is a class with the fields and methods of the
source; each method takes its steps in the order of the code and is proved to leave the object in the state of a run of the
protocol. Between two steps a method calls `Pause`, after which the other thread may have taken any number of its own steps.
`BlobSvcDB` (`BlobDb.dfy`) is the data access object over the tables of `Dao.dfy`. `Clients.dfy` holds the other parties: the
chain the blobs come from, the bundle service, and the chain that seals objects and records their checksums. A bundle service may
be truthful, which means that it knows exactly the bundles uploaded to it; then every history of the object is an honest run in
the sense of `Honesty.dfy`. The object counts the calls that report an error, so that its methods can say when they may fail.

**The read side** (`Service.dfy`) is a server over tables, bundle service and cache; its runs mix requests, evictions and changes
of the archive. `Archive.dfy` joins it to the protocol, and `Honesty.dfy` shows that with a truthful bundle service nothing gets
lost between the upload and the row that says so.

**The rest** is modelled in `Text.dfy` and `Names.dfy` (number, list and name codecs), `Chain.dfy` (flattening of BSC sidecars,
blob rows and their attribution to transactions), `Checksum.dfy` (segmented integrity hash), `Checks.dfy` (the comparisons of a
verification) and `Handler.dfy` (regrouping by transaction). `Replies.dfy` follows a BSC block from the chain to the reply of
the handler.

## Assumptions

- The chain is a fixed function of the slot, sidecars come indexed by their position, an execution block carries no more blob
  hashes than its slot has sidecars, and only ETH has slots without a beacon block; those have no blobs.
- Every block of the chain converts to a row. On ETH a block of another version than Deneb does not (`toBlockAndBlobs` reports an
  error each time it is tried), so a chain that leaves Deneb within the slots to come is excluded; the sync thread would wait at
  the first such slot for good.
- The configured start slot is fixed and positive, the bundle length is positive, and slot plus length stays below 2^64.
- The tables have the unique columns the schema declares. A database call that reports an error has left the tables unchanged;
  an error reported for a save that did commit, at the last slot of a bundle, would leave the current bundle behind the table.
- An update through a struct skips zero-valued columns, so an update to Processed or Finalizing changes nothing.
- The content of an uploaded object is a function of the directory. Digests have a fixed width of 32 bytes, as in section 6.2 of
  FIPS 180-4. Where equal digests must mean equal content, absence of collisions is required of exactly the strings hashed.
- A reader fills the buffer except at the end of its data.

## What was found

- A slot can become Verified although its blobs were never compared: if the look-up for a bundle without blobs happens before
  the last slot of that bundle is saved, and the marking after it, that slot is marked too. `Theorems.VerifiedBlobsWereCompared`
  says that this is the only exception, and `Races.EndSlotRace` gives the run.
- A restart after a bundle was marked Finalized and before its last slot was saved starts the next bundle at that last slot
  (`Races.RunsOverlap`), and only such a restart overlaps (`Theorems.RestartOverlapsExactly`). Bundles tile the slots within one
  run (`Theorems.RunTilesSlots`); over all runs bundles of different ranges share at most the end of one with the start of the
  other (`Theorems.BundlesShareEndsOnly`).
- A slot shared in that way can become Verified because the other bundle was checked, while the bundle it names was never
  uploaded, so that it cannot be served (`Replacements.VerifiedThroughAnother`, `Archive.RefusedUntilUploaded`).
  `Theorems.EvidenceNamesBundle` says when the bundle checked is the one named.
- A Sealed bundle can go back to Finalized (`Races.SealedCanReopen`), exactly when the sync thread marks it again at its unsaved
  last slot (`Theorems.UnsealedExactly`), but never to Finalizing (`Theorems.PastFinalizingForGood`).
- A bundle of several slots without blobs can get stuck for good: if the row is not marked after the refused upload and the
  removal of the directory, every later upload fails for want of the directory, and neither retries nor restarts help
  (`Progress.StuckForever`, `Races.EmptyBundleGetsStuck`). Otherwise the thread can always go on (`Progress.SavesUnlessBlocked`).
- The comment above `verifyBundleIntegrity` promises that a failing bundle is uploaded again until it verifies. The code has no
  way back for a re-upload that is given up after its first slot was moved: that slot names a bundle that stays Finalizing, and
  once it is the earliest Processed one, no block at all is verified any more (`Verifying.GivingUpSticks`,
  `Verifying.VerifyStuckForever`, `Replacements.GivenUpHalfway`). Whenever the bundle named on the earliest Processed block is
  past Finalizing, the verify thread can go on (`Verifying.VerifiesUnlessFinalizing`).
- Blocks are not always verified in order. A re-upload that is given up leaves a Verified block above a Processed one exactly if
  its first moved slot was moved below a Verified one (`Theorems.HalfDoneBreaksFrontier`, `Replacements.GivenUpHalfway`). A
  completed one does so exactly if it passed over a Verified slot without beacon block above the first moved slot
  (`Theorems.CompletedBreaksFrontier`, `Replacements.CompletedOverGap`). Nothing else does (`Theorems.FrontierBreaksExactly`).
- After a re-upload on ETH exactly the slots without a beacon block that named the replaced bundle still do
  (`Theorems.NoBlockNamesReplaced`, `Replacements.OldNameStays`).
- The cache and the database answer alike exactly for absent or strictly increasing indices in range, while the bundle named on
  the block holds the objects cached (`Service.CacheAgreesExactly`); a negative index is answered without cache and panics with
  it. From the moment a re-upload moves a slot with blobs until the new bundle is there, the slot is served from the cache and
  refused without it (`Archive.CachedAgreesOnceUploaded`, `Archive.RefusedUntilUploaded`).
- With start slot 0 and an empty database the first slot processed is 1, because a missing row reads as slot 0
  (`SyncSteps.NextIsLeastBeyond`).
- A slot on ETH is recorded as one without block although it has one, exactly if its block and a later one appear between the two
  questions the sync thread asks (`Chain.PassedOverExactly`); its blobs are then missing from the archive.
- A transaction index of 2^63 or more reaches the client as a text that does not parse (`Handler.IndexSurvivesExactly`).
- Two texts that are no hexadecimal compare as equal blobs (`Checks.HashesAgreeExactly`), and the comments of
  `verifyBlobsAtBlock` do not say so.

## Model

| member | source | states |
|---|---|---|
| Theorems.ContiguousProgress | syncer/syncer.go:131-238 | in every reachable state the saved slots are exactly one interval from the configured start to the slot computed next, each stored once with its own id, none skipped |
| Theorems.BlobRowsAreComplete | syncer/syncer.go:406-547 | in every reachable state every saved slot has exactly one row per blob, column by column as on the chain: name, KZG columns, inclusion proof or transaction index of its sidecar, and hash, recipient and versioned hash of the transaction that owns the blob; no row belongs to an unsaved slot |
| Theorems.BlockRowsCarryTheChain | syncer/syncer.go:200-218 | in every reachable state the row of a saved slot has its slot, the number of its blobs and the header of the chain, all empty for a slot without beacon block |
| Theorems.RestartResumes | syncer/syncer.go:360-404 | after every restart the next slot lies in the current bundle, which is the pending one, or a new one of the configured length; with the start slot unchanged the restart writes nothing |
| Theorems.SkipsExactlyPastTheEnd | syncer/syncer.go:383-397 | if the next slot is past the end of the pending bundle, exactly the saved slots of that bundle become Skipped, exactly it becomes Deprecated and a new bundle of the configured length starts at the next slot; otherwise nothing is written and the bundle goes on |
| Theorems.StartsWithoutPending | syncer/syncer.go:371-374 | without pending bundle nothing is written and a bundle of the configured length starts at the next slot |
| Theorems.OnePendingBundle | db/dao.go:129-136 | at most one uncalibrated bundle is Finalizing; it contains the next slot, its end is not saved, and while the process is up it is the current bundle |
| Theorems.PastFinalizingForGood | db/dao.go:148-153 | no step takes a bundle that left Finalizing back to it |
| Theorems.NamesCoverSlots | types/key.go:32-43 | the name of the bundle on every saved block parses to a range that contains the slot, through any number of re-uploads |
| Theorems.RunTilesSlots | syncer/syncer.go:227-236 | within one run every slot saved since the restart lies in exactly one of the bundles of the run |
| Theorems.SaveUsesTile | syncer/syncer.go:198-236 | a save adds exactly the next slot under the current bundle with all its rows, leaves stored rows alone, and after the last slot of a bundle starts the next one, uncalibrated and of the configured length, one slot later |
| Theorems.UploadsAreExact | syncer/syncer.go:240-274 | whatever was uploaded under a bundle's name holds exactly the blobs of the slots of its range, by name, whatever retries and restarts came before |
| Theorems.HonestBundlePasses | syncer/verifier.go:192-261 | the rebuilt directory equals what was uploaded for the range, so a bundle stored as uploaded passes the checksum comparison |
| Theorems.CountsNeverDiffer | syncer/verifier.go:156-159 | the branch for a count mismatch between rows and chain cannot be taken |
| Theorems.VerifiedHasEvidence | syncer/verifier.go:40-188 | over all interleavings a block is Verified only with a check that succeeded for a bundle covering its slot |
| Theorems.VerifiedBlobsWereCompared | syncer/verifier.go:67-89 | a Verified slot with blobs had them compared, unless it is the end of a bundle found without blobs before that slot was saved |
| Theorems.EndSlotSlipsThrough | syncer/verifier.go:78-89 | in that situation saving and marking make the end slot Verified unchecked |
| Theorems.MatchedBundleIsIntact | syncer/verifier.go:236-253 | if a block is Verified bundle-wise and the chain recorded the checksums of an object, that object is the bundle of exactly the blobs of the range, short of collisions and of digests whose texts differ in nothing but the case of letters |
| Theorems.MatchedBlobsAreIntact | syncer/verifier.go:300-315 | if a block is Verified blob by blob, every object returned is the text of the chain's blob, up to the prefix and the case of the hexadecimal digits |
| Theorems.VerificationFrontier | syncer/verifier.go:42-56 | no Verified block lies above a Processed one while no re-upload is moving slots, unless an earlier one ended with a Verified slot of its range above a moved one |
| Theorems.FrontierBreaksExactly | syncer/verifier.go:321-403 | a step away from that order breaks it exactly if it ends a re-upload with a Verified slot of its range above a moved one |
| Theorems.HalfDoneBreaksFrontier | syncer/verifier.go:350-398 | giving up a re-upload, by an error or a crash, breaks that order exactly if its first slot with a block on the chain has been moved and a slot of the range above it is Verified |
| Theorems.CompletedBreaksFrontier | syncer/verifier.go:360-369 | completing one breaks it exactly if a slot of the range without beacon block, above the first moved slot, is Verified |
| Theorems.MarkingMakesProgress | db/dao.go:69-81 | each marking strictly lowers the number of Processed blocks |
| Theorems.ReuploadMovesRange | syncer/verifier.go:321-403 | a completed re-upload leaves every slot of the range that has a block on the chain under the new bundle, Processed and with its id, and every other block row and every blob row, ids included, as it found them |
| Theorems.NoBlockNamesReplaced | syncer/verifier.go:360-369 | after it a slot still names the replaced bundle if and only if it lies in the range, has no beacon block, and named it when the re-upload began or was saved under it since, or if the new name is the old one; on BSC, with a new name, none does |
| Theorems.BlobRowsNeverChange | db/dao.go:161-166 | no step changes a stored blob row, and new rows belong to slots saved later |
| Theorems.RestartOverlapsExactly | syncer/syncer.go:366-375 | a restart without pending bundle starts one that overlaps a recorded bundle if and only if that one ends at the next slot |
| Theorems.BundlesShareEndsOnly | syncer/syncer.go:366-381 | over all runs two recorded bundles have the same range, which takes a calibrated one, or share at most the end of the one with the start of the other |
| Theorems.UnsealedExactly | syncer/syncer.go:256-262 | a step takes an uncalibrated bundle from Sealed to Finalized if and only if it is the sync thread marking it at its own end slot, and then that slot is not saved |
| Theorems.EvidenceNamesBundle | syncer/verifier.go:40-188 | the check behind a Verified block was made on the bundle it names if the block was checked on its own, or if no other recorded bundle covers the slot; else also on one of the same range, or one sharing the slot as an end |
| Races.EndSlotRace | syncer/verifier.go:78-89 | a reachable state has a Verified slot whose blobs were never compared |
| Races.RunsOverlap | syncer/syncer.go:366-375 | bundles of successive runs can overlap |
| Races.SealedCanReopen | syncer/syncer.go:256-262 | a retried end slot can turn Sealed back into Finalized |
| Progress.SavesUnlessBlocked | syncer/syncer.go:240-324 | in every reachable state an idle sync thread can save its next slot by itself if and only if it is not at the end of a bundle of several slots whose directory is gone and that was never uploaded |
| Progress.StuckForever | syncer/syncer.go:314-324 | if that bundle is still Finalizing, no continuation of the run saves another slot, whatever is retried, verified, uploaded again or restarted, as long as the bundle service finds only what was uploaded |
| Progress.OneStepNearer | syncer/syncer.go:131-238 | short of that the next step of the code is possible and brings the save nearer |
| Races.EmptyBundleGetsStuck | syncer/syncer.go:314-324 | that state is reachable when the slots of a bundle have no blobs |
| Replacements.GivenUpHalfway | syncer/verifier.go:350-398 | a re-upload given up after its first slot can leave a Verified block above a Processed one and the verify thread stuck |
| Replacements.CompletedOverGap | syncer/verifier.go:360-369 | a completed re-upload can leave a Verified block above a Processed one |
| Replacements.OldNameStays | syncer/verifier.go:360-369 | after a completed re-upload under a new name a slot can still name the replaced bundle |
| Replacements.VerifiedThroughAnother | syncer/verifier.go:255-259 | a slot with blobs can be Verified by the check of another bundle than the one it names, which is Finalizing and was never uploaded |
| Verifying.GivingUpSticks | syncer/verifier.go:350-398 | giving up a re-upload, by an error or a crash, after its first slot was moved makes that slot the earliest Processed one, under a bundle that is Finalizing, exactly unless the new name was taken by a bundle past Finalizing or a slot without beacon block before it is still Processed |
| Verifying.VerifyStuckForever | syncer/verifier.go:42-63 | if the earliest Processed block names a calibrated bundle that is Finalizing and the verify thread is not past reading it, then in every continuation, with any saves, crashes and restarts, that stays so and no block becomes Verified |
| Verifying.VerifiesUnlessFinalizing | syncer/verifier.go:40-188 | in every reachable state an idle verify thread can verify the earliest Processed block by itself, block-wise, or bundle-wise if the object of its range can be encoded, if and only if the bundle named on it is no longer Finalizing |
| Safety.StepKeeps | syncer/syncer.go:100-129 | every action of either thread, every crash and every restart keeps the invariant |
| Safety.RunKeeps | syncer/syncer.go:100-129 | every run from the empty database keeps the invariant |
| Safety.ResumesInside | syncer/syncer.go:360-404 | resuming never takes the skipping branch and yields a bundle that contains the next slot |
| SyncSteps.NextIsComputed | syncer/syncer.go:284-295 | the slot computed from the table is the first one not saved |
| SyncSteps.NextIsLeastBeyond | syncer/syncer.go:284-295 | for any tables and any configured start, raised or not, the slot computed is the least one that is not before the start and above all saved ones; with start 0 and no rows slot 0 is passed over |
| SyncSteps.UploadIsExact | syncer/syncer.go:256-272 | when a bundle is uploaded its directory is complete and holds nothing else |
| VerifySteps.RebuildIsExact | syncer/verifier.go:192-215 | when checksums are compared the rebuilt directory is complete and holds nothing else |
| VerifySteps.NothingRecorded | syncer/verifier.go:78-83 | no recorded blob in the range means no blob on the chain in its saved slots |
| ReuploadSteps.IdsMatchNames | syncer/verifier.go:383-388 | when a slot is moved every row takes over the id stored under its own name |
| Frames.VerStable | syncer/syncer.go:117-127 | whatever the sync thread does, the verify thread's part of the invariant stands |
| Frames.SyncStable | syncer/syncer.go:110-116 | whatever the verify thread does, the sync thread's part of the invariant stands |
| Threads.OtherStaysInFrame | syncer/syncer.go:100-129 | any number of steps of one thread stays within what the other thread relies on |
| Syncer.BlobSyncer.GetNextBlockNumOrSlot | syncer/syncer.go:284-295 | the least slot not before the configured start and above all saved ones, unless the database reports an error |
| Syncer.BlobSyncer.LoadProgressAndResume | syncer/syncer.go:360-404 | for any tables and any pending bundle: resumes it, or skips it when the next slot is past its end, or starts a new bundle; which writes may remain after an error |
| Syncer.BlobSyncer.StartLoop | syncer/syncer.go:100-110 | starting up is the restart of the protocol: it changes no table and no directory and leaves the next slot in the current bundle |
| Syncer.BlobSyncer.CreateLocalBundleDir | syncer/syncer.go:298-313 | leaves directory and row of the current bundle in place |
| Syncer.BlobSyncer.WriteBlobToFile | syncer/syncer.go:330-346 | afterwards every blob of the slot is in the directory with the chain's content, although the other thread runs in between |
| Syncer.BlobSyncer.FinalizeBundle | syncer/syncer.go:314-324 | uploads, removes the directory, marks the row, in this order; on success the bundle is Finalized and the history holds an upload, or a refusal as existing or empty, and with a truthful bundle service what was uploaded is exactly its range, or that has no blob |
| Syncer.BlobSyncer.FinalizeUnlessFound | syncer/syncer.go:256-272 | uploads on success exactly if the bundle service answered that it has no such bundle, and takes the bundle as found only if the service knows it; either way it is Finalized afterwards, and with a truthful service uploaded exactly, or without blobs |
| Syncer.BlobSyncer.Process | syncer/syncer.go:240-274 | brings the slot to the point where it may be saved, unless a call fails; at the last slot of a bundle, and only there, the bundle service is asked, its answer decides between upload and found, and on success the bundle is Finalized and, with a truthful service, uploaded exactly, or without blobs |
| Syncer.BlobSyncer.IsDue | syncer/syncer.go:140-185 | a slot is due exactly if it is settled: on BSC below the final block, on ETH with a final block, or without block and behind the latest one |
| Syncer.BlobSyncer.Sync | syncer/syncer.go:131-238 | unless a call fails one round stores the next slot and no other, under the current bundle, which covers it, exactly if that slot is settled on the chain; after the last slot of a bundle that bundle is past Finalizing, and with a truthful service uploaded exactly, or without blobs |
| Syncer.BlobSyncer.VerifyBlobsAtBlock | syncer/verifier.go:266-318 | asks for each blob by its name; the outcome is that of comparing all blobs with the replies, the first blob that does not pass deciding; it writes nothing |
| Syncer.BlobSyncer.CheckSealed | syncer/verifier.go:70-115 | a bundle the service does not know is marked Verified and Sealed exactly if no blob is recorded in its range; one the chain has not sealed is uploaded again exactly if the threshold has passed; otherwise the check goes on |
| Syncer.OutcomeByContent | syncer/verifier.go:266-318 | with the rows of a reachable state a block passes only if the bundle holds for each blob an object that hashes like the chain's, and fails only if it lacks one or holds one that hashes differently |
| Syncer.BlobSyncer.VerifyBundleIntegrity | syncer/verifier.go:192-261 | marks the range Verified and the bundle Sealed, or asks for a re-upload, according to whether the recorded checksums are those of the object packed from exactly the blobs of the range, up to the case of letters; unless a call fails |
| Syncer.BlobSyncer.ReUploadBundle | syncer/verifier.go:321-403 | on success the new bundle has the range of the old one, was uploaded, is Finalized, and every slot of the range that has a block names it and is Processed; with a truthful service its object is exact, or the range has no blob |
| Syncer.BlobSyncer.Verify | syncer/verifier.go:40-188 | one round on the earliest Processed block: it is Verified, the bundle Sealed with its last block or its range, only after the check that the mode calls for succeeded; or the bundle was replaced, only because it was not sealed in time or failed that check; or nothing was due; or a call failed |
| BlobDb.BlobSvcDB.GetLatestProcessedBlock | db/dao.go:51-58 | the row with the highest slot, the zero row when there is none |
| BlobDb.BlobSvcDB.GetEarliestUnverifiedBlock | db/dao.go:60-67 | the Processed row with the lowest slot, not found exactly when none is Processed |
| BlobDb.BlobSvcDB.GetBlockByRoot | db/dao.go:42-49 | a row with that root, the zero row when there is none |
| BlobDb.BlobSvcDB.GetBlobByBlockIDAndIndices | db/dao.go:97-103 | every row of the slot with a listed index once, in ascending order, and no other row |
| BlobDb.BlobSvcDB.GetLatestFinalizingBundle | db/dao.go:129-136 | an uncalibrated Finalizing bundle with the highest id, not found exactly when there is none |
| BlobDb.BlobSvcDB.CreateBundle | db/dao.go:138-146 | a name that exists keeps its row; a new one gets a Finalizing row with a higher id than all others, and no other row changes |
| BlobDb.BlobSvcDB.UpdateBlocksStatus | db/dao.go:76-81 | exactly the rows of the range get the status and nothing else about any row changes; Processed is never written |
| BlobDb.BlobSvcDB.UpdateBundleStatus | db/dao.go:148-153 | exactly the named row gets the status and nothing else about any row changes; Finalizing is never written |
| BlobDb.BlobSvcDB.SaveBlockAndBlob | db/dao.go:155-169 | rows that are new, or carry the ids stored under their slot and names, are all stored, known rows keep their ids, ids stay unique and no other row changes |
| Dao.SaveBlockFits | db/dao.go:157-160 | saving a row that is new, or carries the id stored for its slot, changes that slot only and keeps ids unique |
| Dao.UpsertBlobsFits | db/dao.go:161-166 | saving rows with distinct names stores each, keeps the ids of known names, and leaves all other rows alone |
| Dao.UpsertBlobClash | db/dao.go:161-166 | a row that carries the id of another name renames that row, unless its own name is taken, which stores nothing; a known name keeps its id |
| Dao.SaveClash | db/dao.go:157-166 | a block row whose slot another row has is not stored, without error, and the blob rows saved with it still are |
| Dao.RowsClash | db/dao.go:157-166 | if a blob row clashes, none of the blob rows is stored, without error, and the block row saved with them still is |
| Dao.RowsAtDense | db/dao.go:89-95 | with one row per index the query returns row i at position i |
| Dao.RowsOfMeans | db/dao.go:89-103 | a query lists every row under the keys asked for once, ascending by index, and no other |
| Checksum.ComputeIntegrityHashSerial | util/checksum.go:15-67 | the loop computes the specified hash list and the content length, whatever order the workers finish in |
| Checksum.HashShards | util/checksum.go:51-64 | every worker order leaves the hash of shard i's digests in entry i + 1 |
| Checksum.EncodeAndComputeHash | util/checksum.go:85-99 | appends the digest of each shard of the segment to that shard's list, or nothing when encoding fails |
| Checksum.SegmentsPartition | util/checksum.go:27-43 | the segments concatenate to the content and all but the last are full |
| Checksum.HashListEntries | util/checksum.go:15-150 | a nonempty object has a list exactly if there are 1 to 256 shards, at least one of data, and every segment can be split; entry 0 is the digest of the joined segment digests, entry i + 1 that of the joined digests of shard i |
| Checksum.EmptyHashList | util/checksum.go:114-118 | the empty object has a list for any number of shards, with the digest of nothing in every entry |
| Checksum.ConcatIsInjective | util/checksum.go:70-75 | joined digests of one width split back in one way only |
| Checksum.FirstEntryDeterminesContent | util/checksum.go:49-51 | objects with equal first entry are equal, short of a collision |
| Checksum.HashListIdentifiesContent | util/checksum.go:15-67 | hash lists are equal if and only if the contents are, short of a collision |
| Checks.CompareChecksums | syncer/verifier.go:242-253 | true exactly when the lists have equal length and the texts agree up to the case of letters; false whenever some text differs in a character otherwise |
| Checks.EqualFoldMeans | syncer/verifier.go:249 | the comparison succeeds exactly if the texts have equal length and at each position the same character or the two cases of one letter |
| Checks.PassMeansEachPasses | syncer/verifier.go:266-318 | a block passes if and only if each of its blobs does |
| Checks.EarlierBlobDecides | syncer/verifier.go:270-277 | the first blob that does not pass decides; later replies do not matter |
| Checks.PassedObjectsAgree | syncer/verifier.go:279-315 | after a pass the object at each index is the source blob of that index, up to prefix and the case of digits, and so is the KZG proof, unless neither proof is hexadecimal |
| Checks.VerdictExactly | syncer/verifier.go:269-315 | one blob passes exactly if an object came, the index is the row's, and KZG proof and object agree with the chain's up to prefix and case, or are not hexadecimal on both sides; it fails without verdict exactly if the service is out of reach or the index does not parse |
| Checks.HashesAgreeExactly | util/util.go:45-56 | short of a collision two texts hash alike if and only if they are the same hexadecimal up to prefix and case, or neither is hexadecimal |
| Text.HexBytesMeans | util/util.go:45-56 | a text stands for some bytes exactly if it has two hexadecimal digits for each, the high one first, in either case |
| Text.HexBytesExist | util/util.go:45-56 | a text stands for bytes exactly if its length is even and it consists of hexadecimal digits |
| Text.DecodeUndoesPrint | util/util.go:45-56 | decoding gives back the bytes that were printed, in small or capital digits, with and without prefix |
| Text.HashOfPrinted | util/util.go:45-56 | the hash of printed bytes is their digest |
| Text.DecodesAlike | util/util.go:45-56 | two texts decode to the same bytes if and only if, after the prefix, they are the same digits up to case |
| Chain.GetBlob | external/client.go:66-99 | the nested loops flatten the transactions as specified, with the same failure for the first bad transaction |
| Chain.FlattenIsNumbered | external/client.go:78-97 | every flattened sidecar's index is its position in the block |
| Chain.ToInt64Means | external/client.go:93 | a transaction index is taken modulo 2^64 into the signed range |
| Chain.PopulateBlobTxDetails | syncer/syncer.go:411-430 | the loop stays in bounds exactly when there are no more hashes than rows; then each row has, column by column, the hash, recipient and own versioned hash of the transaction that owns it, and is otherwise as before |
| Chain.AttributionIsByOwner | syncer/syncer.go:418-428 | blob j gets hash and recipient of exactly the transaction t with PrefixCount(t) <= j < PrefixCount(t + 1), and of its blob hashes number j - PrefixCount(t); all other columns, and rows without owner, stay |
| Chain.AttributionCoversAll | syncer/syncer.go:418-428 | with equal counts every blob has such a transaction |
| Chain.OwnerIsUnique | syncer/syncer.go:418-428 | no blob has two |
| Chain.MakeBlobs | syncer/syncer.go:449-468 | the rows of a block, or an error when an index does not parse |
| Chain.ToBlobsShape | syncer/syncer.go:449-464 | row i is named after slot and position i |
| Chain.ToBlobsColumns | syncer/syncer.go:449-547 | row i has, column by column, what sidecar i and the transaction that owns blob i say |
| Chain.PassedOverExactly | syncer/syncer.go:153-185 | with the chain moving on between the two questions, a slot on ETH is passed over although it has a block exactly if its block and a later one come in between |
| Service.BlobService.GetBlobSidecarsByBlockNumOrSlot | service/blob.go:37-110 | a step of the server: the answer from the cache or the direct one, an error exactly if a call failed; exactly complete answers are cached; a slot not cached gets the direct answer, a cached one whose bundle holds the objects cached gets it exactly for indices in order and range |
| Service.BlobService.GetBlobSidecarsByRoot | service/blob.go:112-118 | the answer for a block with that root; an unknown root is answered like slot 0 |
| Service.CacheAgreesExactly | service/blob.go:39-53 | for a cached slot the cache gives the direct answer if and only if the bundle named now holds the objects cached for the rows asked for, when indices are absent or strictly increasing and in range; otherwise only if both refuse |
| Service.FirstOutDecides | service/blob.go:42-48 | from the cache the first index out of range decides: one too large is an error, a negative one a panic |
| Service.RunsAnswerExactly | service/blob.go:37-110 | over every sequence of requests, evictions, table changes and uploads such a request gets the direct answer if and only if the slot is not cached or the bundle named on it at that moment holds the objects cached, unless a call fails |
| Service.StepKeepsAgreement | service/blob.go:105-109 | under every event each cached slot stays what one bundle holds for its rows |
| Archive.ArchiveEvolves | service/blob.go:73-103 | through any number of steps of the archive the rows and headers served for a saved slot stay the same |
| Archive.ArchiveIsAChange | service/blob.go:73-103 | so for the server any number of steps of the archive is one change in which objects only appear, if the bundle service holds what was uploaded |
| Archive.ServesWhatIsStored | service/blob.go:73-103 | a saved slot is served exactly when its bundle holds every blob, each with the object under its own name, the columns of the chain, the hash of the owning transaction, and on ETH the header of the chain field by field |
| Archive.ServesTheChain | service/blob.go:73-103 | if the bundle service holds what was uploaded, a slot whose bundle was uploaded is served with the chain's blobs |
| Archive.RefusedUntilUploaded | service/blob.go:73-103 | a slot with blobs whose bundle was never uploaded is refused, whatever its status |
| Archive.VerifiedBlobsAreServed | service/blob.go:73-103 | a slot Verified blob by blob is served with the chain's blobs up to prefix and case of digits, if the bundle service still answers what it answered then |
| Archive.VerifiedBundleIsServed | service/blob.go:73-103 | a slot Verified bundle-wise is served with the chain's blobs, if the bundle checked is the one it names and the bundle service serves the files of the object whose checksums were recorded |
| Archive.ServedIsTheChain | service/blob.go:37-110 | over every run of server and archive, with a bundle service that holds only what was uploaded, every sidecar served, cached or not, is one of the chain for that slot, and an answer to a request for all is the chain's sidecars in order |
| Archive.CachedAgreesOnceUploaded | service/blob.go:37-110 | with such a bundle service a cached slot is answered as without cache if and only if the bundle named on it holds its objects |
| Honesty.NothingIsLost | syncer/syncer.go:256-324 | if bundles are reported found, or refused as existing or empty, only truthfully, every bundle that left Finalizing was uploaded with exactly the blobs of its range, unless that has none, over all failures, crashes and re-uploads |
| Honesty.HonestArchiveServes | service/blob.go:73-103 | then every saved slot of such a bundle is served with exactly the chain's sidecars and blobs |
| Service.RowsAtIndicesMeans | db/dao.go:97-103 | a query by index returns exactly the listed rows of the slot, ascending and once |
| Handler.GroupByTx | restapi/handlers/blob.go:104-125 | the loop yields one group per hash with exactly that hash's blobs, commitments and proofs in order, each listed once in any order |
| Handler.FlattenThenRegroup | restapi/handlers/blob.go:104-125 | flattening and regrouping under distinct hashes gives back every transaction's blobs, commitments, proofs and index, and nothing else |
| Handler.RegroupByOwnHash | restapi/handlers/blob.go:104-125 | with the transactions' own hashes the reply is the transactions in some order |
| Replies.ReplyIsTheBlock | restapi/handlers/blob.go:100-125 | the sidecars served for a BSC block, grouped by the handler, are the transactions the chain listed with all their blobs, commitments, proofs and indices, each under the hash of its own transaction in the execution block, and nothing else, if the two lists of the chain line up |
| Handler.RestoredIndex | util/util.go:69-80 | the transaction index printed for the client reads back as the number the chain gave |
| Handler.IndexSurvivesExactly | util/util.go:69-80 | any index the chain may give reads back from what the client gets if and only if it is below 2^63 |
| Names.BundleNameRoundTrip | types/key.go:15-43 | parsing a bundle name, calibrated or not, gives back its range |
| Names.BlobNameRoundTrip | types/key.go:11-30 | parsing a blob name gives back slot and index |
| Names.ParsesExactly | types/key.go:19-43 | any name yields two numbers exactly if its second and third field, without their first character, are numbers; it panics exactly if a field is missing or empty and no number before it fails |
| Names.BundleNameIsInjective | types/key.go:15-17 | different bundles have different names |
| Names.BlobNameIsInjective | types/key.go:11-13 | different blobs have different names |
| Names.ScratchNamesAreApart | syncer/verifier.go:194 | rebuild directories and upload directories never share a name |
| Names.RenamingKeepsRange | syncer/verifier.go:325-331 | renaming any number of times never changes the parsed range |
| Text.SplitByComma | util/util.go:29-39 | the items between commas, trimmed, without empty ones |
| Text.TrimSpaceMeans | util/util.go:30-35 | trimming takes exactly the white space off both ends |
| Text.CommaRoundTrip | util/util.go:29-43 | splitting a joined list gives it back if and only if its items are nonempty, trimmed and free of commas |
| Text.SplitJoinSplit | util/util.go:29-43 | split, join, split equals split for every string |
| Text.Uint64RoundTrip | util/util.go:12-18 | parsing undoes printing exactly below 2^64 |
| Text.StringToUint64Means | util/util.go:12-18 | a text parses to a number exactly if it consists of decimal digits, at least one, that weigh up to it, below 2^64 |
| Text.FormatMeans | util/util.go:59-66 | a number prints as digits that weigh up to it, in small letters and without leading zero |
| Text.Int64RoundTrip | util/util.go:21-27 | parsing undoes printing exactly in the signed 64-bit range |
| Text.StringToInt64Means | util/util.go:21-27 | digits with at most one sign parse to the number they weigh up to, within the signed 64-bit range |
| Text.HexRoundTrip | util/util.go:69-80 | parsing undoes hexadecimal printing for nonnegative numbers below 2^63 |
| Text.PrefixedMeans | util/util.go:69-75 | digits after 0x, 0o, 0b or 0 are read in base 16, 8, 2 or 8, below 2^64 |
| Text.UnderscoresMean | util/util.go:69-75 | a hexadecimal index is read as if its underscores were not there if each has a digit behind it, and not at all otherwise |

## Left out

- HTTP, RPC, beacon, Greenfield and storage-provider clients, request signing and multipart bodies: the chain is a function, every
  call may fail, and replies of the bundle service are arbitrary values unless it is truthful.
- `BeaconClient.GetBlob` in external/eth/beacon_client.go reads the body of an error reply as a slot without blobs; the chain of
  the model never answers that way.
- The bundle file format, Reed-Solomon arithmetic, SHA-256, base64 and KZG: parameters of the model; `RSEncoder.ShardSize` is left
  out.
- gorm and MySQL beyond the table semantics stated above; the order of `GetBlobBetweenBlocks`, whose one caller only asks whether
  there is a row.
- The eviction policy of the cache: any entry but the latest may be dropped. Returned slices are values, so sharing them with the
  cache is not modelled.
- Byte-level file writes: a file is written or not; removing a directory succeeds as a whole, and its error, which the code
  ignores, is not modelled.
- Bundle and blob names inside the tables are structured values; `Names.dfy` shows that printing and parsing them loses nothing.
- Sync, Verify: the head of the source chain and the seals of the storage chain stand still during one round; only
  `PassedOverExactly` lets the head move in between. Clocks are arbitrary numbers.
- A changed start slot: only `NextIsLeastBeyond`, `LoadProgressAndResume` and `SkipsExactlyPastTheEnd` speak about it.
- Fairness between the threads: progress of a thread is what it can do by itself when nothing more fails and, for the verify
  thread, when the bundle service answers with the chain's blobs or checksums.
- A request reads tables and objects at one moment; changes of the archive in the middle of a request are not modelled.
- Case folding beyond the letters of ASCII in the checksum comparison; texts that are not valid UTF-8.
- ReplyIsTheBlock: that the execution block of a BSC block and its sidecars list the same blob transactions in the same order,
  with distinct hashes, is assumed of the chain.
- Handlers other than the grouping loop, generated REST and protobuf code, command line, configuration, logging, metrics, quota.
- OtherThread: its body takes no step, because callers must not know more than its contract; `Threads.OtherStaysInFrame` shows
  what every sequence of steps of the other thread guarantees.
