# Polystore gateway, modelled and proved

Dafny models of the parts of the Polystore gateway that keep providers honest and data
intact: who may sign and when, how a broadcast survives a crash, when a generation
directory may be deleted, how files are packed, appended and read back, and how integrity
proofs, retrieval plans and proof batches are computed.

Verify the whole project with `dafny verify dfyconfig.toml`.

## How the model is made

- Code that changes shared state is a class, and each of its methods is proved equal to a
  function on the class's value. Theorems about interleavings are about runs: a world, the
  events that can happen to it, and a lemma for every event and every sequence of events.
- Loops of the source are loops here, proved against functions or predicates that do not
  mention them.
- The durable store is a map changed by all-or-nothing transactions. The filesystem is a
  map with atomic link and rename.
- The chain, the transaction client and its child processes are oracles: their outcomes
  are events or arguments. So are the clock, contexts that end, and calls into foreign
  code. Erasure coding, KZG commitments and hash functions are function parameters. No
  hash is assumed to be free of collisions: a lemma either excludes a collision between
  the two values at hand (`NoClash`) or says that there is one and where (`Clash`).
- Leases live in the memory of one gateway process. Other processes are assumed to leave
  the stages and the binaries of the directories that are leased here as they are; links
  into any generation they may make at any time, and everything else they may change.
- A temporary file gets a random name that no artifact has (`mdu_7_`, digits, `.bin`
  beside `mdu_7.bin`), so stages hold no such name, and its maker removes it before it
  returns its lease.
- Integers are unbounded, except the generation revision, which wraps at 64 bits, and the
  fee checks, which keep the source's 256-bit bounds.
- Bit masks of slots and the accepted-sample bitmap are sets.
- Bucket keys of proof cleanup are numbers, because only their order matters there.

| file | models |
|---|---|
| `admission.dfy`, `admission_runs.dfy` | signer and session admission, priority waiters |
| `proof_store.dfy`, `journal.dfy`, `journal_truth.dfy`, `journal_runs.dfy` | the proof bucket, the signer marker, crash-safe submission, what callers are told |
| `lifecycle.dfy`, `lifecycle_runs.dfy` | leases, watches, exclusive publication, garbage collection |
| `publication.dfy`, `publication_runs.dfy`, `publication_reach.dfy` | immutable artifact and generation publication, alone and interleaved |
| `codec.dfy`, `decoded_reader.dfy`, `witness_reader.dfy` | PolyFS packing and its three readers |
| `append.dfy`, `appended_witness.dfy`, `stripe.dfy` | Mode 2 append, reading what it wrote, striping |
| `hash_tree.dfy`, `integrity_root.dfy`, `integrity_index.dfy`, `proof_merkle.dfy` | Merkle trees |
| `retrieval_plan.dfy`, `proof_batch.dfy`, `proof_ids.dfy`, `basics.dfy` | v3 plans, fees, data chunks, proof batches, journal IDs |
| `preparation.dfy`, `metadata_cache.dfy`, `cleanup.dfy` | the preparation gate, the metadata cache, proof cleanup |

## Where a property fails, and exactly when it holds

- A broadcast in flight keeps its signer's marker in every continuation if and only if some
  session of the intent was not accepted when it was written. The frozen-session client
  takes sessions whose proof is already on chain, and it completes by session status before
  it looks at its pending hash (`FreshnessIsExact`, `StaleIntentUnsafe`). Such an intent is
  reached from the empty store by serving the same session again after its proof went
  through (`StaleIsReachable`). The intents of the other clients are always fresh
  (`OnlyFrozenSessionsCanBeStale`).
- A publication that finds its destination there compares it outside the lock. When it
  reports success, the destination holds every staged binary, and it holds no other one if
  and only if nothing was linked into it after it was listed and no temporary binary is in
  it at the discard (`Publishes`, `DuplicateIsExact`). An integrity index linked in between
  is one exception (`IndexLinkedMeanwhile`), the temporary file of an MDU that is being
  rebuilt is the other (`ReconstructionMeanwhile`); both are reached from the start
  (`ExtraBinaryIsReachable`, `TemporaryBinaryIsReachable`). A temporary file of either kind
  that is listed refuses the publication instead (`TemporaryFileRefuses`).
- A binary of a leased generation stays as it is if and as long as it is nobody's temporary
  file (`HeldGenerationIsImmutable`). A rebuilt MDU is first written in place under a
  temporary `.bin` name.
- The preparation gate does not keep an artifact from being built twice, because generation
  acceptance builds and links the integrity index without it. No caller of the gate starts
  to build what is there (`PreparedOnce`), and the gate builds a key at most once more than
  its artifact is lost (`BuiltOncePerLoss`).
- A lease protects a generation from collection if it is live at the removal or was granted
  after the watch. One granted before the watch and returned before the removal does not,
  although the directory was leased while it was watched (`CollectsExactly`,
  `EarlierLeaseDoesNotProtect`).
- The number of user MDUs that the file table gives is right if and only if its last record
  is not empty. Append ignores tombstones, so for append it must also not be one. Otherwise
  append reuses MDUs of an earlier record, and the witness count inferred from the directory
  is too large after an empty file (`CountIsExact`, `AppendOverlaps`, `InferenceIsExact`).
  The comment on the table count says that it includes tombstones; the append loop does not.
- Publishing a generation onto itself reports success and deletes it
  (`SelfPublicationDeletes`).
- The index builder never hashes a single leaf, so for one leaf it compares a zero root
  (`BuildIntegrityIndex`). Real generations have at least 96 leaves.

## Model

| member | source | states |
|---|---|---|
| Admission.RetrievalOperations.AdmitPriorityLocked | polystore_gateway/retrieval_submission.go:55-68 | the in-place scan lets in, oldest first, exactly the waiters whose signers are free, up to the free slots |
| Admission.RetrievalOperations.ReleaseOperations | polystore_gateway/retrieval_submission.go:70-83 | frees the sessions and the signer and hands the slot on in the same critical section |
| Admission.RetrievalOperations.ClaimOperations | polystore_gateway/retrieval_submission.go:99-117 | claims all sessions and the signer or nothing; refused when full, busy, or the signer has a waiter |
| Admission.RetrievalOperations.ClaimPrioritySigner | polystore_gateway/retrieval_submission.go:123-149 | computes the granted, queued or refused answer, whose meaning over every world is `PriorityOutcome` |
| Admission.RetrievalOperations.CancelWait | polystore_gateway/retrieval_submission.go:158-173 | a canceled waiter gives back an admission that raced with it, or leaves the queue, and admits others |
| Admission.AdmitSettles | polystore_gateway/retrieval_submission.go:55-68 | an admission pass keeps all bounds and the bijection of queue and map, and leaves nobody admissible |
| Admission.NotOvertaken | polystore_gateway/retrieval_submission.go:55-68 | a waiter is overtaken by a younger one only while its own signer is busy |
| AdmissionRuns.StepInv | polystore_gateway/retrieval_submission.go:55-175 | every operation keeps: each session and signer held by exactly one caller, bounds, bijection, no admissible waiter |
| AdmissionRuns.RunInv | polystore_gateway/retrieval_submission.go:55-175 | the same in every state of every run, cancellation races included |
| AdmissionRuns.ForegroundPassesNobody | polystore_gateway/retrieval_submission.go:99-117 | a foreground claim never takes a signer that has a queued waiter, nor a slot a waiter could use |
| AdmissionRuns.ReleaseAdvances | polystore_gateway/retrieval_submission.go:70-83 | if a waiter whose signer is free still waits after a release, an older waiter got the slot |
| AdmissionRuns.NobodyIsOvertaken | polystore_gateway/retrieval_submission.go:55-175 | whatever the step, a caller that gets a signer in it passes no waiter that stays queued, unless that waiter's own signer is busy or the caller was queued before it |
| AdmissionRuns.NoRunOvertakes | polystore_gateway/retrieval_submission.go:55-175 | the same for every step of every run, a priority claim granted at once included |
| AdmissionRuns.WithdrawnGainsNothing | polystore_gateway/retrieval_submission.go:158-173 | a waiter that leaves the queue gives nobody a signer |
| AdmissionRuns.PriorityOutcome | polystore_gateway/retrieval_submission.go:123-149 | in every reachable state a priority claim is granted exactly if nobody holds the signer, nobody waits for it and a slot is free; otherwise it gets the last place in the queue, unless four wait or the signer is awaited already |
| AdmissionRuns.ForegroundOutcome | polystore_gateway/retrieval_submission.go:99-117 | in every reachable state a foreground claim is granted exactly if nobody holds one of its sessions or its signer, nobody waits for the signer and there is room; then it holds exactly those |
| AdmissionRuns.HolderHandsOver | polystore_gateway/retrieval_submission.go:55-83 | when the holder of an awaited signer finishes or is canceled, the waiter holds the signer or an older waiter got the slot |
| ProofStore.Bucket.CheckOp | polystore_gateway/retrieval_submission.go:326-334 | accepts exactly 1 to 64 distinct non-empty IDs of at most 128 bytes |
| ProofStore.Bucket.ClaimPendingSigner | polystore_gateway/retrieval_submission.go:365-399 | records an intent or a hash; never replaces another operation or a recorded hash; at most 4 markers |
| ProofStore.Bucket.ClearPendingSigner | polystore_gateway/retrieval_submission.go:401-419 | clears only the matching operation; a missing marker is no error |
| ProofStore.Bucket.ChangeFrozenSubmissions | polystore_gateway/retrieval_submission.go:521-562 | removes all loaded records, or changes in each exactly the submission state that the update names and never its statement, together with the marker; nothing at all if one of them is stale or the marker change is refused |
| ProofStore.Bucket.StoreFrozenSessionProof | polystore_gateway/retrieval_response.go:261-300 | stores a new proof below the cap; an existing one must hold the same statement and is not touched |
| ProofStore.StoreIsIdempotent | polystore_gateway/retrieval_response.go:267-285 | storing again has no effect, another statement is refused, no record is lost, the cap holds |
| ProofStore.StoreGranted | polystore_gateway/retrieval_response.go:261-300 | a proof is stored if and only if the same one is there or fewer than 8192 are; a new one is not submitted and has no hash |
| Journal.StepInv | polystore_gateway/retrieval_submission.go:771-916 | every step of every client, crash, chain event and orphaned child keeps the journal invariant, for fresh intents; legacy submissions and audits that clear a recorded hash on coverage are among the steps |
| Journal.RejectedOk | polystore_gateway/main.go:775-828 | after an explicit rejection nothing of the attempt can still be broadcast, and the invariant holds whether its caller retries or withdraws |
| Journal.RunSafe | polystore_gateway/retrieval_submission.go:771-916 | in every run: one broadcast in flight per signer, its marker present with its operation and no other hash, at most 4 markers |
| Journal.InitSafe | polystore_gateway/retrieval_submission.go:365-419 | the empty store satisfies the journal invariant |
| Journal.SelectedIsOpen | polystore_gateway/retrieval_v3_session.go:229-240 | whatever batch, slot or ordinal a client picks from the status it read, some ID of it is not accepted |
| Journal.BatchAcceptedIsBitmap | polystore_gateway/retrieval_v3_submission.go:58-72 | a v3 batch counts as accepted exactly when the session's bitmap has each of its samples |
| Journal.OnlyFrozenSessionsCanBeStale | polystore_gateway/retrieval_submission.go:771-774 | in every run from the empty store, what any client but the frozen-session one picked is still not all accepted when it writes its intent |
| Journal.StaleIntentUnsafe | polystore_gateway/retrieval_submission.go:771-774 | a stale intent can lose its marker while its broadcast is in flight, shown for every such state |
| Journal.FreshnessIsExact | polystore_gateway/retrieval_submission.go:771-883 | all continuations of an intent are safe if and only if some ID of it is not accepted yet |
| Journal.HashWriteOnce | polystore_gateway/retrieval_submission.go:379-386 | whatever happens next, a recorded hash is never replaced while its marker exists |
| Journal.AcceptedIsQuiet | polystore_gateway/retrieval_v3_submission.go:58-72 | once all IDs of an operation are accepted, nothing of it is in flight or about to be |
| Journal.EndingSettles | polystore_gateway/retrieval_submission.go:889-914 | the ending that a caller holds clears exactly its own marker and leaves no record, records ready for a retry, or a kept hash; that the ending is true of the chain is `ToldTheTruth` |
| Journal.ReconcileSettles | polystore_gateway/retrieval_submission.go:761-774 | a completed operation loses its marker and its records, hash recorded or not |
| Journal.CleanupSparesSubmissions | polystore_gateway/retrieval_proof_cleanup.go:80-82 | maintenance never deletes a record of a submission that is in flight or may still be broadcast |
| Journal.ReconcileOk | polystore_gateway/system_audit_v2.go:355-407 | clearing a marker on evidence for all its IDs keeps the invariant, for an audit also when a hash is recorded |
| JournalTruth.StepTruth | polystore_gateway/retrieval_submission.go:771-916 | every event, stale intents included, keeps every ending that a caller holds, every recorded hash and every marker true of the chain |
| JournalTruth.ToldTheTruth | polystore_gateway/retrieval_submission.go:795-826 | in every run from the empty store a caller is told of success only with evidence on chain for all its IDs, and of a failure only with a failed transaction of its own operation |
| JournalTruth.ToldNothingIncluded | polystore_gateway/retrieval_submission.go:895-902 | in every fresh run one that is told that nothing was included has an open operation and nothing in flight or armed |
| JournalTruth.CommittedIsSuccess | polystore_gateway/retrieval_submission.go:800-804 | one that polls a committed transaction is told of success |
| JournalTruth.RevertedIsRetained | polystore_gateway/retrieval_submission.go:805-822 | one that polls a reverted transaction is told of the failure, and its ending keeps every stored proof with its statement |
| JournalTruth.LeavesOnEvidence | polystore_gateway/retrieval_submission.go:761-774 | a record that is being submitted or has a hash leaves the store only when its session is proved on chain |
| JournalTruth.StatementStays | polystore_gateway/retrieval_submission.go:521-562 | every event keeps the statement of every proof that stays stored |
| JournalTruth.ProofSurvives | polystore_gateway/retrieval_submission.go:771-916 | over every run a stored proof stays with its statement until its session is proved on chain or maintenance takes it, through crashes, rejections and reverts |
| JournalTruth.ServedStatement | polystore_gateway/retrieval_response.go:261-300 | the statement that was served is the one stored from then on |
| JournalRuns.AtMostFiveLaunches | polystore_gateway/main.go:775-828 | over any run one intent starts at most five children, whatever rejects them |
| JournalRuns.RetryNeedsSequenceRejection | polystore_gateway/main.go:775-828 | over any run one intent starts at most one child more than it met sequence rejections |
| JournalRuns.RejectionIsRetried | polystore_gateway/main.go:775-828 | a rejected child is tried again exactly after a sequence rejection before the fifth attempt, and withdrawn otherwise |
| JournalRuns.IntentCanBeWritten | polystore_gateway/retrieval_submission.go:365-399 | a valid intent can be written whenever fewer than four signers have markers and its records are idle and not complete |
| JournalRuns.HashCanBeRecorded | polystore_gateway/retrieval_submission.go:884-888 | in every reachable state the hash of a broadcast can be recorded |
| JournalRuns.UnsentIsWithdrawn | polystore_gateway/retrieval_submission.go:895-902 | a caller whose child broadcast nothing can withdraw, which clears its marker and frees its records |
| JournalRuns.CrashRecovers | polystore_gateway/retrieval_submission.go:777-826 | after any crash an operation with a recorded hash can be taken up, polled and finished once its transaction has settled, which clears the marker and settles the records as the chain says |
| JournalRuns.IntentReconciles | polystore_gateway/retrieval_submission.go:761-774 | an intent that nobody works on is reconciled away once the chain shows its whole operation |
| JournalRuns.HolderCanQuit | polystore_gateway/retrieval_submission.go:800-826 | a holder can let go at any point; the store stays, and a recorded hash can be taken up again |
| JournalRuns.SpareRecordsGo | polystore_gateway/retrieval_proof_cleanup.go:80-82 | whatever the session status, maintenance removes no record that holds a submission or a hash; any other one it may remove, and nothing goes with it |
| JournalRuns.BatchIsValid | polystore_gateway/retrieval_submission.go:326-334 | every batch of at most 64 samples of a session is an operation that the marker accepts |
| JournalRuns.BatchCanBegin | polystore_gateway/retrieval_v3_session.go:229-240 | while a sample of the slot is not accepted a free signer can take up a batch, and it is not empty |
| JournalRuns.SingleCanBegin | polystore_gateway/retrieval_v3_generation.go:302-433 | a generation slot or an audit can be taken up exactly while the chain does not show it and its signer is free |
| JournalRuns.SubmissionRuns | polystore_gateway/retrieval_submission.go:771-916 | a submission that goes through empties the store and leaves its evidence on chain |
| JournalRuns.StaleIsReachable | polystore_gateway/retrieval_submission.go:771-774 | for every session, signer, proof and hash a safe run from the empty store ends where a stale intent may be written |
| Lifecycle.GenerationLifecycle.LeaseGenerationPaths | polystore_gateway/generation_lifecycle.go:189-226 | leases all distinct paths or none; refused for an empty path, a publishing entry, or more than 4096 entries |
| Lifecycle.GenerationLifecycle.ReleaseGenerationPaths | polystore_gateway/generation_lifecycle.go:227-238 | drops one reference per path and forgets idle entries |
| Lifecycle.GenerationLifecycle.WatchGeneration | polystore_gateway/generation_lifecycle.go:285-306 | pins an entry and remembers its serial and revision, unless there is no directory or no room |
| Lifecycle.GenerationLifecycle.Drop | polystore_gateway/generation_lifecycle.go:183-187 | adjusts an entry and forgets it exactly when nobody holds or watches it |
| Lifecycle.GenerationLifecycle.MarkPublishing | polystore_gateway/generation_lifecycle.go:125-132 | marks a stage exactly when one reference to it is held |
| Lifecycle.AcquiredOne | polystore_gateway/generation_lifecycle.go:217-225 | leasing path by path, in any order, is leasing all of them at once |
| LifecycleRuns.StepInv | polystore_gateway/generation_lifecycle.go:115-350 | every step keeps references equal to leases, watchers to watches, entries present exactly when one is positive, the cap, pinned watches and exclusive publication |
| LifecycleRuns.RunInv | polystore_gateway/generation_lifecycle.go:115-350 | the same in every state of every run, other processes included |
| LifecycleRuns.RunGrants | polystore_gateway/generation_lifecycle.go:217-225 | a watch counts the leases granted on its path since it began, over any run that does not close it |
| LifecycleRuns.CollectsNow | polystore_gateway/generation_lifecycle.go:317-338 | in every reachable state the removal check through the watch's own entry means: no lease now, none granted since, same directory, no lock, not kept |
| LifecycleRuns.CollectsExactly | polystore_gateway/generation_lifecycle.go:285-350 | over whole runs from watch to removal, a directory is moved if and only if exactly that holds |
| LifecycleRuns.EarlierLeaseDoesNotProtect | polystore_gateway/generation_lifecycle.go:322-325 | a lease granted before the watch and returned before the removal does not protect, for every such state |
| LifecycleRuns.RunSerials | polystore_gateway/generation_lifecycle.go:183-225 | over any run an entry is kept or replaced by one with a greater serial, never by an older one |
| LifecycleRuns.RemadeIsAnother | polystore_gateway/generation_lifecycle.go:183-225 | an entry that is forgotten and made again is another entry, so only a pinned one keeps its revision meaningful |
| LifecycleRuns.PublicationIsExclusive | polystore_gateway/generation_lifecycle.go:125-137 | from mark to unmark the publisher alone holds the stage and no lease on it can be granted |
| LifecycleRuns.PublicationIsNotCollected | polystore_gateway/generation_lifecycle.go:120-137 | stage and destination of a publication in progress are never collected |
| LifecycleRuns.LeaseOutcome | polystore_gateway/generation_lifecycle.go:189-226 | in every reachable state a lease is granted exactly if no path of it is being published and at most 4096 paths are held or watched with it; otherwise nothing changes |
| LifecycleRuns.WatchOutcome | polystore_gateway/generation_lifecycle.go:285-306 | a directory can be watched exactly if its path is held or watched already or fewer than 4096 are |
| LifecycleRuns.PublicationGivesBack | polystore_gateway/generation_lifecycle.go:115-143 | a publication that is through gives back its lock, its mark and its leases, and changes no directory |
| LifecycleRuns.OtherLockStays | polystore_gateway/generation_lifecycle.go:133-143 | a publication that finds the lock of its destination taken ends without touching it |
| Publication.Publisher.SameArtifactFiles | polystore_gateway/generation_lifecycle.go:57-82 | the same exactly for two regular files of one size and digest; an error exactly when the first is missing, or is regular and the second is missing |
| Publication.Publisher.PublishImmutableArtifact | polystore_gateway/generation_lifecycle.go:87-111 | links if nothing is there, accepts an equal file, refuses anything else |
| Publication.Publisher.CompareEntries | polystore_gateway/generation_lifecycle.go:159-178 | one side matches when each entry is a hint or a binary equal on both sides |
| Publication.Publisher.PublishImmutableGeneration | polystore_gateway/generation_lifecycle.go:145-181 | with nobody else writing: renames to an absent destination, discards a matching stage, refuses a conflict; exactly when, is `GenerationOutcome` |
| Publication.ArtifactPublished | polystore_gateway/generation_lifecycle.go:87-111 | success if and only if the destination was free or equal; then it holds the source's bytes and nothing else changes; a refusal changes nothing |
| Publication.GenerationPublished | polystore_gateway/generation_lifecycle.go:115-181 | with nobody else writing, after success the destination holds exactly the staged binaries, both ways, and an existing destination is untouched |
| Publication.GenerationOutcome | polystore_gateway/generation_lifecycle.go:115-181 | success if and only if the stage is there and the destination is absent, or both are directories that hold only hints and binaries equal on both sides; a new destination is what was staged; a refusal changes nothing |
| Publication.BinaryHasSuffix | polystore_gateway/generation_lifecycle.go:163-172 | binaries are exactly the names that end in the suffix, and neither hint is one |
| Publication.DuplicateOrConflict | polystore_gateway/generation_lifecycle.go:159-181 | of two publications one after the other, the second is a duplicate exactly when it matches; otherwise both directories stay as they were |
| Publication.SelfPublicationDeletes | polystore_gateway/generation_lifecycle.go:115-181 | publishing a directory onto itself succeeds exactly when it holds only regular binaries and hints, and deletes it |
| PublicationRuns.StepInv | polystore_gateway/generation_lifecycle.go:115-181 | every step of publishers, readers, links, collection and other processes keeps what each comparison has found so far true of the directories |
| PublicationRuns.RunInv | polystore_gateway/generation_lifecycle.go:115-181 | the same in every state of every run |
| PublicationRuns.RunRefines | polystore_gateway/generation_lifecycle.go:115-350 | every run over contents is a run of the lifecycle |
| PublicationRuns.StageKeeps | polystore_gateway/generation_lifecycle.go:125-132 | from its mark on, nobody but the publisher changes a stage |
| PublicationRuns.HeldKeeps | polystore_gateway/generation_lifecycle.go:83-111 | no step changes or removes a binary of a generation somebody holds that is nobody's temporary file, and only links add one |
| PublicationRuns.HeldGenerationIsImmutable | polystore_gateway/generation_lifecycle.go:83-111 | over any run in which a lease is not returned, the binaries of its generation that are nobody's temporary file stay with their bytes, and the new ones are exactly those linked |
| PublicationRuns.TempsStay | polystore_gateway/mode2_reconstruct.go:292-306 | every step leaves each temporary binary a regular file in a generation that its maker holds |
| PublicationRuns.Publishes | polystore_gateway/generation_lifecycle.go:115-181 | at every point of every run after the mark: on success every binary staged at the mark is in the destination with its bytes or clashes with the file there; before that the stage is as it was |
| PublicationRuns.PublishersAgree | polystore_gateway/generation_lifecycle.go:159-181 | two publishers that succeeded on one destination staged files of the same digest under every name both staged |
| PublicationRuns.DuplicateIsExact | polystore_gateway/generation_lifecycle.go:159-181 | after a successful comparison the destination's binaries are the stage's (by name; by bytes where no two files of one name clash) if and only if nothing was linked into it after it was listed and no temporary binary is in it at the discard |
| PublicationReach.RenamePublishes | polystore_gateway/generation_lifecycle.go:145-151 | in every reachable world the move of a stage to an absent destination succeeds, and the destination is what was staged |
| PublicationReach.DuplicateSucceeds | polystore_gateway/generation_lifecycle.go:152-181 | from every world where a comparison begins with matching directories, a run publishes and leaves the destination alone |
| PublicationReach.ComparisonCanStop | polystore_gateway/generation_lifecycle.go:152-181 | a comparison can be given up at any point; nothing is published and both directories stay |
| PublicationRuns.IndexLinkedMeanwhile | polystore_gateway/retrieval_v3_integrity_index.go:282-292 | from every world where a comparison has just ended, a reader can link the integrity index and the publication still succeeds, with a binary that was not staged |
| PublicationRuns.ReconstructionMeanwhile | polystore_gateway/mode2_reconstruct.go:292-306 | from every such world a reader can begin to rebuild an MDU: nothing is linked, the publication succeeds, and the temporary file is a binary that was not staged |
| PublicationReach.TemporaryBinaryIsReachable | polystore_gateway/mode2_reconstruct.go:292-306 | the same by a run from the start without any link |
| PublicationReach.ExtraBinaryIsReachable | polystore_gateway/generation_lifecycle.go:152-181 | for any directories, binary and index, a run from the start reports success over a destination with a binary that was never staged |
| PublicationRuns.TemporaryFileRefuses | polystore_gateway/generation_lifecycle.go:170-172 | with an entry in the listed destination that is no hint and no staged binary, no continuation publishes |
| PublicationRuns.RefusedChangesNothing | polystore_gateway/generation_lifecycle.go:115-181 | over any run a publication that has not succeeded has itself changed no directory |
| Codec.RoundTrip | polystore_core/src/ffi.rs:342-429 | unpacking what was packed gives the payload back, for every payload of at most one MDU |
| Codec.RepackIsCanonical | polystore_core/src/ffi.rs:342-429 | packing what was unpacked gives the MDU back if and only if its padding is zero |
| Codec.RightAligned | polystore_core/src/ffi.rs:342-377 | the last byte of a scalar is the last byte of its chunk, short or not, and its first byte is zero |
| Codec.EncodePayloadToMdu | polystore_core/src/ffi.rs:342-377 | the chunk loop packs the payload right-aligned into a zeroed buffer, or refuses and changes nothing |
| Codec.DecodePayloadFromMdu | polystore_core/src/ffi.rs:384-429 | the scalar loop unpacks the payload, or refuses a wrong size |
| DecodedReader.PolyfsDecodedReader.constructor | polystore_gateway/resolve.go:37-73 | for any segment, a reader placed at its first byte in its MDU and scalar |
| DecodedReader.PolyfsDecodedReader.ChunkBounds | polystore_gateway/resolve.go:146-167 | the reader's arithmetic finds the payload of the current scalar, the short last one included |
| DecodedReader.PolyfsDecodedReader.FetchScalar | polystore_gateway/resolve.go:140-174 | buffers exactly the payload bytes of the scalar at the cursor, or fails if it is not stored |
| DecodedReader.PolyfsDecodedReader.Advance | polystore_gateway/resolve.go:127-138 | crossing an MDU boundary keeps the cursor |
| DecodedReader.PolyfsDecodedReader.Read | polystore_gateway/resolve.go:98-181 | delivers the next bytes of the file in order, as many as asked or left if they are stored; end of file exactly when nothing is left |
| DecodedReader.Drain | polystore_gateway/resolve.go:98-181 | any schedule of buffer sizes, zero included, reads the segment without gaps or repeats |
| DecodedReader.CopySegment | polystore_gateway/fetch_cache.go:174-205 | copying until end of file ends and yields exactly the segment of a stored scalar-aligned file |
| DecodedReader.PackedIsStored | polystore_core/src/ffi.rs:342-377 | packing a file MDU by MDU from an MDU boundary stores its bytes where the readers look |
| DecodedReader.ResolveSegmentDecoded | polystore_gateway/fetch_cache.go:210-267 | serves the bytes up to the end of one MDU, the file's if it starts at a scalar; fails exactly past the end or without a whole MDU |
| DecodedReader.UnpackedByte | polystore_gateway/fetch_cache.go:239-259 | unpacking a whole MDU up to the file's end finds the file's bytes, whatever lies before the file |
| DecodedReader.Download | polystore_gateway/main.go:4084-4115 | the chunk loop emits the range in order, all of it exactly when every MDU it needs is whole; the bytes are the file's if it starts at a scalar |
| DecodedReader.ReadersAgree | polystore_gateway/fetch_cache.go:174-267 | where both readers finish they serve the same bytes, those of the file |
| WitnessReader.ReadScalar | polystore_gateway/retrieval_proof.go:386-398 | one scalar's share of the range; fails exactly when a byte before its payload is not zero |
| WitnessReader.ReadFrozenWitnessCommitments | polystore_gateway/retrieval_proof.go:367-405 | succeeds exactly when the request fits and every visited scalar is clean, and returns its slice of the stream |
| WitnessReader.PackedWitness | polystore_gateway/retrieval_proof.go:367-405 | on a packed stream every request that fits succeeds with its exact slice |
| Append.LiveEnd | polystore_gateway/ingest_mode2.go:842-858 | the largest end of the live records |
| Append.FileTableUserMduCount | polystore_gateway/resolve.go:365-384 | user MDUs of the whole table, tombstones included; refused exactly when an extent overflows 64 bits |
| Append.CopyShards | polystore_gateway/ingest_mode2.go:933-943 | every slot of every old stripe is copied to its new index |
| Append.DecodeWitness | polystore_gateway/ingest_mode2.go:946-976 | the packed witness MDUs are read back into the commitment stream |
| Append.EncodeFile | polystore_gateway/ingest_mode2.go:1003-1101 | one stripe per chunk of the file, in order (`StripeOfFile`), checked for its shape and stored after the old ones, which stay |
| Append.StripeOfFile | polystore_gateway/ingest_mode2.go:1003-1101 | a file gets as many stripes as it needs, one if it is empty, and stripe `j` codes its bytes from `j` capacities on |
| Append.FileReadBack | polystore_gateway/ingest_mode2.go:801-1183 | with any decoder of single stripes, the stripes that a record leads to give its file back, whatever was appended later |
| Append.RebuildWitness | polystore_gateway/ingest_mode2.go:1141-1173 | the joined stream is packed into the new witness MDUs and their roots taken |
| Append.UserRoots | polystore_gateway/ingest_mode2.go:1125-1136 | the old user roots are recomputed from their spans of the stream |
| Append.AppendFile | polystore_gateway/ingest_mode2.go:801-1183 | if the old directory represents some stripes and counts them right, the new one represents them followed by the stripes of the new file's chunks, and its record says where they are |
| Append.AppendAll | polystore_gateway/ingest_mode2.go:801-1183 | after any number of appends of non-empty files all stripes are represented in order, every file has its own MDUs, and the record of each file leads to the stripes of its own chunks |
| Append.StripeSurvives | polystore_gateway/ingest_mode2.go:933-943 | a shard and a user root move by as much as the witness MDUs grow and are otherwise unchanged |
| Append.LaidApart | polystore_gateway/ingest_mode2.go:988-991 | files start on MDU boundaries and never share an MDU |
| Append.CountIsExact | polystore_gateway/ingest_mode2.go:842-867 | the table gives the number of user MDUs if and only if its last record is not empty (for append, and live) |
| Append.AppendOverlaps | polystore_gateway/ingest_mode2.go:988-991 | the next file would overlap the last record's MDUs if and only if that record is empty or a tombstone |
| Append.InferWitnessCount | polystore_gateway/resolve.go:387-423 | the highest MDU or shard index minus the table's count; an error if that is negative, an extent overflows, or there is no MDU at all |
| Append.InferenceIsExact | polystore_gateway/resolve.go:387-423 | the inferred witness count is the builder's if and only if the last file is not empty |
| Append.EnoughWitnesses | polystore_core/src/builder.rs:203-215 | the witness MDUs hold the whole stream and the last of them is needed |
| AppendedWitness.AppendedIsPacked | polystore_gateway/ingest_mode2.go:1141-1173 | the witness MDUs of a represented generation are the packing of its whole commitment stream |
| AppendedWitness.ReadAppended | polystore_gateway/retrieval_proof.go:367-405 | on any generation append made, the witness reader succeeds for every user MDU and returns that MDU's own commitments |
| Stripe.ReconstructMduFromDataShards | polystore_gateway/mode2_reconstruct.go:350-371 | blob `row * k + slot` of the MDU is blob `row` of shard `slot`; refused exactly for bad parameters or sizes |
| Stripe.SynthesizeSlotWindow | polystore_gateway/mdu_viewer.go:299-323 | the requested blobs of the slot's column; refused exactly for a window or slot outside |
| Stripe.WindowOfRebuilt | polystore_gateway/mdu_viewer.go:299-323 | any window of a rebuilt MDU is that window of the shard |
| Stripe.RebuiltOfWindows | polystore_gateway/mode2_reconstruct.go:350-371 | extracting all full slots and rebuilding gives the MDU back when the slots cover it |
| HashTree.RootIsTree | polystorechain/pkg/retrievalchallenge/v3_integrity.go:99-117 | hashing level by level computes the tree defined from the top down, for every leaf count |
| HashTree.Complete | polystorechain/pkg/retrievalchallenge/v3_integrity.go:171-194 | every leaf's own path is accepted |
| HashTree.Sound | polystorechain/pkg/retrievalchallenge/v3_integrity.go:171-194 | an accepted value and path are the leaf's own, or they show at a computed level a pair of the tree and another of the path with the same parent hash |
| HashTree.SoundWithoutClash | polystorechain/pkg/retrievalchallenge/v3_integrity.go:171-194 | if no pair of the tree and pair of the path collide, only the leaf itself with its own path is accepted |
| HashTree.HeightIsLog | polystore_gateway/retrieval_v3_integrity_index.go:78-81 | the height is the least one whose tree covers the leaves |
| IntegrityRoot.IntegrityRootInPlace | polystorechain/pkg/retrievalchallenge/v3_integrity.go:99-117 | halving the level in its own storage computes the root |
| IntegrityRoot.AddLeaf | polystorechain/pkg/retrievalchallenge/v3_integrity.go:128-141 | merging on carry keeps one full subtree per set bit of the leaf count, within 24 levels |
| IntegrityRoot.FoldPeaks | polystorechain/pkg/retrievalchallenge/v3_integrity.go:146-168 | folding the peaks from the lowest, duplicating where a level is empty, gives the root of the tree |
| IntegrityRoot.IntegrityRootReader | polystorechain/pkg/retrievalchallenge/v3_integrity.go:122-169 | one pass over a file of exactly the stated size gives the root; every other size is refused |
| IntegrityIndex.IndexSize | polystore_gateway/retrieval_v3_integrity_index.go:73-91 | the header and 32 bytes for each node above the leaves |
| IntegrityIndex.NodeCountBounds | polystore_gateway/retrieval_v3_integrity_index.go:73-83 | between n-1 and n-1 plus the logarithm of n internal nodes |
| IntegrityIndex.BuildIntegrityIndex | polystore_gateway/retrieval_v3_integrity_index.go:143-239 | the streamed file is the header and all levels of the tree in order; built exactly when the leaf file fits and its root is the expected one |
| IntegrityIndex.ValidateIntegrityIndex | polystore_gateway/retrieval_v3_integrity_index.go:93-112 | accepts exactly the right size, magic and leaf count |
| IntegrityIndex.HeaderNumber | polystore_gateway/retrieval_v3_integrity_index.go:178-183 | the header spells the name of the format and then the leaf count in base 256 |
| IntegrityIndex.BuiltIsValid | polystore_gateway/retrieval_v3_integrity_index.go:93-112 | the index of a leaf file is valid for its own leaf count and for no other |
| IntegrityIndex.ReadIntegrityPath | polystore_gateway/retrieval_v3_integrity_index.go:305-351 | reads by offset, within bounds, exactly the siblings of the position |
| IntegrityIndex.VerifyIntegrityPath | polystorechain/pkg/retrievalchallenge/v3_integrity.go:171-194 | the fold loop accepts exactly the accepted paths |
| IntegrityIndex.IndexServesItsLeaves | polystore_gateway/retrieval_v3_data.go:171-185 | a path read from a built index is accepted for its leaf; any other accepted value or path shows two colliding pairs |
| ProofMerkle.KeccakMerkleRootAndPaths | polystore_gateway/session_merkle.go:16-54 | the level loop gives the root and each leaf's path; a single leaf is paired with itself |
| ProofMerkle.SessionPathsFold | polystore_gateway/session_merkle.go:16-54 | for every leaf count every path folds to the root and all are equally long |
| ProofMerkle.BuildProofMerkleTree | polystore_gateway/retrieval_proof.go:409-426 | stores all levels of the tree whose odd nodes rise unchanged |
| ProofMerkle.ProofMerklePath | polystore_gateway/retrieval_proof.go:427-437 | collects exactly the siblings that exist |
| ProofMerkle.RisePathFolds | polystore_gateway/retrieval_proof.go:409-437 | for every leaf count a path folds to the root, skipping exactly the levels without a sibling, and is used up |
| RetrievalPlan.ResidueCountIsExact | polystorechain/pkg/retrievalchallenge/v3.go:93-99 | the closed form is the number of blobs of the range in the slot |
| RetrievalPlan.CountsAddUp | polystorechain/pkg/retrievalchallenge/v3.go:75-99 | the eight counts add up to the population |
| RetrievalPlan.BuildPlan | polystorechain/pkg/retrievalchallenge/v3.go:75-91 | the plan lists the non-empty slots in order; refused exactly for a range that is not canonical |
| RetrievalPlan.PlanIsWhole | polystorechain/pkg/retrievalchallenge/v3.go:75-91 | the blobs of the plan are the population |
| RetrievalPlan.FreezeSession | polystore_gateway/retrieval_v3_session.go:131-180 | a snapshot passes exactly when its obligations, masks, locked fee and plan agree |
| RetrievalPlan.OrdinaryIsAccepted | polystore_gateway/retrieval_v3_session.go:131-180 | every session made from a range, a price and providers passes, with any slots acknowledged, settled or refunded that the masks allow, if its whole fee fits 256 bits |
| RetrievalPlan.AcceptedIsOrdinary | polystore_gateway/retrieval_v3_session.go:131-180 | whatever passes is such a session, field by field |
| RetrievalPlan.AcknowledgedIsLocked | polystore_gateway/retrieval_v3_session.go:155-166 | the fee of a slot that is acknowledged and neither settled nor refunded is still locked |
| RetrievalPlan.ClosedSlots | polystore_gateway/retrieval_v3_session.go:155-166 | settled slots were acknowledged and not refunded, and every closed slot has an obligation |
| RetrievalPlan.MoneyIsConserved | polystore_gateway/retrieval_v3_session.go:131-180 | price times population is the locked fee plus settled plus refunded obligations |
| RetrievalPlan.DataChunk | polystore_gateway/retrieval_v3_data.go:88-109 | exactly the blobs of the MDU, range and slot, in order, at most eight; refused exactly when there are none |
| RetrievalPlan.FrozenDataChunk | polystore_gateway/retrieval_v3_data.go:70-116 | the same for a request; refused exactly for another deal, owner or root, a wrong MDU, or a slot that is closed, acknowledged or without a payee |
| RetrievalPlan.PayeeIsProvider | polystore_gateway/retrieval_v3_data.go:78-87 | in a checked session the payee found for a planned slot is the provider of its one obligation |
| RetrievalPlan.ChunksPartition | polystore_gateway/retrieval_v3_data.go:88-109 | each planned blob belongs to one chunk and no other |
| RetrievalPlan.ChunkIsConsecutive | polystore_gateway/retrieval_v3_data.go:153-170 | a chunk reads consecutive rows of one shard |
| RetrievalPlan.SlotsAreRepresented | polystore_gateway/retrieval_v3_session.go:167-176 | a checked session has an obligation for the slot of every blob in its range |
| RetrievalPlan.SlotsArePlanned | polystorechain/pkg/retrievalchallenge/v3.go:84-90 | every slot with a blob of the range is in the plan |
| ProofBatch.ProviderChallenges | polystore_gateway/retrieval_v3_session.go:209-241 | the first pending samples of the signer's one slot and how many stay; nothing for a closed slot; refused for no slot or several |
| ProofBatch.SelectPending | polystore_gateway/retrieval_v3_session.go:229-240 | the selection loop takes the first pending ordinals and counts the rest |
| ProofBatch.PendingInOrder | polystore_gateway/retrieval_v3_session.go:229-240 | pending ordinals come in the order of the challenge list |
| ProofBatch.BatchAccepted | polystore_gateway/retrieval_v3_session.go:229-240 | accepting a batch leaves exactly the rest pending, in order |
| ProofBatch.ProveAll | polystore_gateway/retrieval_v3_session.go:209-241 | each pending ordinal is proved once, in order, in the least number of batches, and then nothing is pending |
| ProofIds.PrintIds | polystore_gateway/retrieval_v3_submission.go:20-27 | one ID per ordinal: session, colon, decimal ordinal |
| ProofIds.ParseIds | polystore_gateway/retrieval_v3_submission.go:29-56 | reads exactly what printing makes of a canonical batch, and refuses everything else |
| ProofIds.ParseId | polystore_gateway/retrieval_v3_submission.go:43-49 | one ID is read exactly if it is the canonical one of an ordinal below the limit |
| ProofIds.DigitsRoundTrip | polystore_gateway/retrieval_v3_submission.go:44-46 | reading a printed number gives it back |
| ProofIds.OneReading | polystore_gateway/retrieval_v3_submission.go:20-56 | two batches of a session never print alike |
| ProofIds.PendingProofsAccepted | polystore_gateway/retrieval_v3_submission.go:58-72 | true exactly if the operation names this session and every one of its samples is accepted |
| Preparation.RetrievalPreparations.ClaimPreparation | polystore_gateway/retrieval_v3_integrity_index.go:45-64 | joins the running attempt of a key or starts one |
| Preparation.RetrievalPreparations.FinishPreparation | polystore_gateway/retrieval_v3_integrity_index.go:65-71 | records the outcome and frees the key |
| Preparation.StepInv | polystore_gateway/retrieval_v3_integrity_index.go:41-71 | every step keeps one open attempt per active key, owned by the caller working on it, whatever appears or is lost without the gate |
| Preparation.SingleOwner | polystore_gateway/retrieval_v3_integrity_index.go:41-71 | in every run a key has at most one owner, and nobody inherits a cancellation: a caller is told it was canceled only if it was or its own attempt was |
| Preparation.PermanentReachesAll | polystore_gateway/retrieval_v3_integrity_index.go:52-60 | over any run a waiter of a failed attempt ends with its error unless it is canceled itself, and never prepares again |
| Preparation.NextOwner | polystore_gateway/retrieval_v3_integrity_index.go:245-300 | after a canceled owner a live waiter looks, claims, looks again and builds |
| Preparation.PreparedOnce | polystore_gateway/retrieval_v3_integrity_index.go:274-285 | no caller of the gate starts to build a prepared key, in any run in which its artifact is not lost |
| Preparation.BuiltOncePerLoss | polystore_gateway/retrieval_v3_integrity_index.go:245-300 | over any run the gate builds a key at most once more than its artifact is lost, whatever appears meanwhile |
| Preparation.SuccessPrepares | polystore_gateway/retrieval_v3_integrity_index.go:253-292 | whoever is told of success finds the artifact there |
| Preparation.PermanentHasCause | polystore_gateway/retrieval_v3_integrity_index.go:41-71 | a permanent error is told only to a caller whose own look failed with it, to the owner whose attempt did, and to those who waited for that attempt |
| Preparation.FinderSucceeds | polystore_gateway/retrieval_v3_integrity_index.go:253-275 | a live caller that looks at an artifact that is there succeeds, and so does one that waited for it |
| Preparation.NewcomerOutcome | polystore_gateway/retrieval_v3_integrity_index.go:253-272 | a new caller that finds the artifact succeeds, and one that claims a free key owns it |
| Preparation.ClaimOutcome | polystore_gateway/retrieval_v3_integrity_index.go:41-64 | a claim joins the open attempt exactly if some caller owns the key, and opens its own otherwise |
| Preparation.OwnerCanFinish | polystore_gateway/retrieval_v3_integrity_index.go:274-292 | an owner can end with any failure, but with success exactly if it built or found the artifact; then the key is free |
| Preparation.CancellationHolds | polystore_gateway/retrieval_v3_integrity_index.go:41-60 | over every run a caller canceled before it owned an attempt never owns one and is told nothing but that; a canceled owner never reports success |
| Preparation.CanceledLeaves | polystore_gateway/retrieval_v3_integrity_index.go:49-51 | a canceled waiter can leave without its owner |
| MetadataCache.GenerationCache.Lookup | polystore_gateway/retrieval_proof.go:105-115 | returns the cached value and makes its key the most recent one |
| MetadataCache.GenerationCache.Insert | polystore_gateway/retrieval_proof.go:149-164 | stores the value as the most recent; a full cache drops the least recently used key; never more than 4 entries |
| MetadataCache.InsertedKeeps | polystore_gateway/retrieval_proof.go:149-164 | an insertion keeps every other key while there is room, and of four all but the least recent |
| MetadataCache.GenerationCache.LeastRecent | polystore_gateway/retrieval_proof.go:151-158 | the scan finds the entry with the smallest stamp |
| Cleanup.CleanupPass | polystore_gateway/retrieval_proof_cleanup.go:14-58 | visits in order at most 32 keys beyond the cursor, and no more than its context allows, and misses none; without any it starts over, and a full pass that visits fewer leaves none beyond |
| Cleanup.CycleIsFair | polystore_gateway/retrieval_proof_cleanup.go:14-58 | over a whole cycle a key that stays stored is visited exactly once, whatever else comes and goes |

## Left out

- HTTP handlers, request authorization, signatures, S3, peer-to-peer transport, the website and configuration: input and output around the modelled core.
- Chain queries, the transaction client and waiting for a commit: oracles whose classified outcomes are events of the journal.
- Wall-clock time: provisional generation lifetimes, response windows and timeouts are not modelled; a context that ends is an event or an argument.
- Erasure coding, KZG and the MDU 0 builder: parameters; the roots and the file table they keep are plain data here.
- JSON and the byte layout of stored records: records are values; a frozen proof's statement is one opaque value.
- The concurrency of encoding inside one append: the stripes are coded one after another.
- Overflow of 64-bit offsets and of the cache's use clock: offsets and stamps are unbounded here, except where the table count refuses an overflow.
- The range check and the session context behind a v3 session: the plan starts from a blob range.
- The digest comparison of session contexts, setup and plan hashes in a v3 snapshot: only the economic checks are modelled.
- The retry delays of the transaction client: only that a retry needs an explicit sequence rejection and that there are at most five attempts.
- Removal of quarantined directories: after the atomic move nothing else can reach them.
- RetrievalPlan.FreezeSession: does not cover provider address decoding, the range check, hashes, the anchor and sample counts, which are compared with a challenge derivation that is not modelled.
- ProofStore.Bucket.ChangeFrozenSubmissions: has no size limit on a rewritten record, because records are values.
- ProofStore.Bucket.StoreFrozenSessionProof: has no size limit on a stored or existing record, because records are values.
- Publication.Publisher.PublishImmutableGeneration: is one step here; its interleavings are the runs of `PublicationRuns`.
- Publication.GenerationPublished: is about that one step; over runs its two-way half fails, and `PublicationRuns.DuplicateIsExact` says exactly when it holds.
- Publication.DuplicateOrConflict: is about publications one after the other; see `PublicationRuns.PublishersAgree`.
- A destination that is not a directory, a stage whose removal fails halfway and a temporary file whose removal fails: not in the runs of publication, where every path is a directory and a removal is one step.
- ProofMerkle.ProofMerklePath: takes the tree of a known leaf vector, as its callers do; other trees are not described.
