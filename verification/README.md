# Backup, recovery and frontend contracts, verified

This project models the parts of BeyondCandidate whose promises hold over whole runs and
proves those promises with Dafny 4.11. `dafny verify dfyconfig.toml` checks all of it.

The core is the backup and recovery subsystem.

- The COMPLETE-last publisher and its reconciler (`PublisherProtocol.dfy` and the files named
  `Publisher*`, `ReconcilerRun.dfy`) are a step system over one bucket: any number of
  publishers and reconcilers, each of which may fail or crash at every operation, and uploads
  that may land late, repeatedly or never after an error. A schedule is any sequence of steps,
  so a statement about every schedule is a statement about every run. `PublisherRun.dfy` and
  `ReconcilerRun.dfy` hold the two commands as they run, operation by operation, and show that
  every execution of them, with others at work in between, is a run of that system.
- The scheduled coordinator (`Scheduler*.dfy`, `CatalogCheck.dfy`, `CatalogTheorems.dfy`) is a
  second step system over histories of invocations: one lock, one durable journal, one freshness
  record, crashes anywhere, atomic writes that may land although they raise. `SchedulerRun.dfy`
  holds one invocation as it runs, `SchedulerFailures.dfy` says what a failed one leaves of the
  freshness record, and `AcceptedCatalog.dfy` shows that accepted catalogs exist. The
  verification of the remote catalog is a method with its loop, and what a freshness record
  stands for combines it with the retention planner's checks.
- The retention planner and the prune command (`Retention*.dfy`, `Prune*.dfy`), the ledger
  archive (`LedgerRules.dfy`), the backup manifest and group (`BackupManifest.dfy`,
  `BackupGroup.dfy`), the reference certificate (`ReferenceProof.dfy`), the closed-traffic
  restore (`Recovery.dfy`, `RestoreBinding.dfy`) and the re-deletion protocol
  (`Redeletion.dfy`, `ChildEnvironment.dfy`) follow `backupctl.py`. The restore and the
  re-deletion protocol are methods that change a disk and append to a log of effects.

Three smaller parts follow: the router with URL encodings written out byte by byte and dot
segments followed (`Percent.dfy`, `Query.dfy`, `Router*.dfy`), the interview slot classifier
(`Slots.dfy`) and the `.env` file of the community setup (`Env*.dfy`, `CommunitySetup.dfy`).

What the decisions mean is stated once more without the functions that make it, on the fields
and literals of the documents: `GroupRules.SnapshotAcceptedIff` for snapshots, `LedgerAcceptance.dfy`,
`BackupAcceptance.dfy` and `CatalogAcceptance.dfy` for the documents of the backup, `SchedulerStages.dfy`
for stages and journal, `Destinations.dfy` for destinations and object names, `Scalars.dfy` for
Python's comparisons, `Encodings.dfy` and `RouterTable.dfy` for the router, `EnvValues.dfy` for the
`.env` file. The two are proved equivalent for every input.

## How the outside world is modelled

- SHA-256 and HMAC are free constructors (`Foundations.Digest`, `Foundations.Tag`): equal digests
  have equal preimages. A digest spelled in a document is the JSON value `Hash`; a string that
  spells 64 hexadecimal digits without being a digest of anything is a `Str`.
- The library calls whose code lies outside the repository (JSON, UTF-8, UTC parsing, UUIDs,
  `str`, `int`) are the fields of `Foundations.Platform`. The theorems hold for every platform
  with the laws of `Lawful`, chiefly that parsing undoes canonical printing. The laws can be met:
  `Consistency.LawsAreConsistent` gives a platform with all of them. One law idealises: floats
  are binary fractions of any precision here, and each is read back as it was printed.
- External programs, clocks and randomness are inputs: functions or fields that say how each
  call ends and what it delivers. `os.replace` is atomic; a write that raises may have landed.
- The publisher's bucket starts empty, has no other writers, and nothing deletes from it. In the
  interleaved prune, publications are of fresh valid groups of the greatest order.
- An operator removes the scheduler's journal only while no invocation holds the lock, as
  `deploy/backup-recovery-runbook.md` lines 206-209 demand.

## Where the code departs from its documentation or from what one would expect

The models follow the code.

- `deploy/backup-scheduler-design.md` lines 43-44 promise that any validation or child failure
  leaves the previous successful freshness state unchanged. The coordinator keeps this for every
  stage that exits badly or is killed and for every catalog its verification refuses:
  `SchedulerFailures.ChildOrValidationFailureKeepsFreshness`. It does not keep it for what
  `_write_freshness` itself still validates and writes once `last-success.json` has been replaced
  (`deploy/backup/scheduled-backup.py` lines 166-190; the check of the metrics directory is at
  lines 187-188), nor for the log line, the removal of the journal, or a freshness write that
  raises after it took effect. `SchedulerFailures.FailedRunRecordedIff` states the exact condition
  over all histories, and `AcceptedCatalog.SomeFailedRunHasAdvanced` gives a history.
- A COMPLETE that is absent after "commit unknown" may still arrive, because an upload reported
  as failed can land late; `deploy/backup-recovery-runbook.md` lines 172-174 rightly keep that
  status unknown. `PublisherLateCommit.SomeCommitLandsLate` gives, for every run id, such
  a history with one continuation that commits the run and another after which nothing does;
  `PublisherLateCommit.CommitUnknownMayLand` does so from every history and for every accepted
  snapshot. The run is certain never to commit only when COMPLETE is neither remote nor under way:
  `PublisherExitCodes.CommitStillPossibleIff`.
- `plan_prune` accepts a catalog that lists a run id twice. Pruning is then not re-entrant:
  `PruneCommand.DuplicateRunIdsArePlannedTwice`; `PruneCommand.ReentrantIff` gives the
  exact condition on the catalog.
- A detail path for an empty id or for "." leads to the list, one for ".." to no page:
  `RouterTheorems.EmptyIdIsTheList`, `RouterTheorems.ParentIdIsUnknown`.
- Running the community setup again can change the `.env` file: a slug or name that spans lines
  is read back as several entries. `CommunitySetup.OneEnvFileIff` gives the exact condition for one
  given `.env` file, `CommunitySetup.CommunitySetupIsIdempotentIff` the one for each example file
  and whatever `.env` file, `CommunitySetup.EveryFileIff` the one for all.

## Model

| member | source | states |
|---|---|---|
| PublisherTheorems.CompleteMeansWholeGroup | deploy/backup/s3-atomic-publisher.py:535-581 | On every schedule of any number of publishers and reconcilers, with crashes, errors and late-landing uploads: once COMPLETE is remote, the remote group is a whole group of exactly that run, named by it in its manifest, with every payload the manifest binds and the right marker; it equals byte for byte the snapshot of the one client past the lease, and the run has objects under no other prefix |
| PublisherTheorems.AtMostOnePastTheLease | deploy/backup/s3-atomic-publisher.py:552-560 | At most one publisher of a run is ever past the conditional create, and the lease in the bucket is its own |
| PublisherTheorems.RemoteIsPermanent | deploy/backup/s3-atomic-publisher.py:554-581 | No later step of anyone removes or replaces a remote object or a receipt |
| PublisherTheorems.ReceiptsAreTrue | deploy/backup/s3-atomic-publisher.py:569-581 | Every receipt ever written, by a publisher or by a reconciler that read objects one at a time, describes a remote whole group of its run and carries the hash of that group's manifest and of the 32 bytes of the lease |
| PublisherTheorems.ReceiptsAgree | deploy/backup/s3-atomic-publisher.py:573-624 | All receipts of one run in one bucket are equal, whoever wrote them and whatever prefix they were asked about |
| GroupRules.SnapshotAcceptedIff | deploy/backup/s3-atomic-publisher.py:286-328 | A snapshot is accepted exactly when it has the members of one kind, its manifest names the run, records hash and size of every payload it binds, and COMPLETE is the hash of the manifest as a line; then under that hash |
| PublisherTheorems.AbandonedNeverCommits | deploy/backup/s3-atomic-publisher.py:552-563 | With the lease taken, its holder stopped and no COMPLETE remote or under way, no continuation ever shows a COMPLETE or a receipt of the run, because the lease is never released |
| PublisherTheorems.LateLeaseEndsTheRun | deploy/backup/s3-atomic-publisher.py:552-563 | A conditional create that takes effect only after its publisher was told of an error leaves that lease for good, and no continuation ever shows a COMPLETE or a receipt of the run |
| PublisherExitCodes.ExitCodesMeanWhatTheySay | deploy/backup/s3-atomic-publisher.py:627-649 | What each outcome of a publisher past its lease says about the bucket: success means COMPLETE and receipt, conflict, provider failure and internal failure mean the run can never commit, commit unknown means every payload is remote and verified |
| PublisherExitCodes.CommitStillPossibleIff | deploy/backup/s3-atomic-publisher.py:569-581 | After the lease holder has stopped, the run can still be committed exactly when COMPLETE is remote or was sent and may still arrive |
| PublisherLateCommit.CommitUnknownMayLand | deploy/backup/s3-atomic-publisher.py:569-581 | From every history that left no trace of a run, and for every accepted snapshot of it: a publisher can hold the lease and stop as commit unknown with COMPLETE absent and under way; its landing alone commits the run, and once it is dropped nothing ever does |
| PublisherLateCommit.SomeCommitLandsLate | deploy/backup/s3-atomic-publisher.py:569-581 | On every lawful platform and for every valid run id such a history exists from the first step on, because accepted snapshots exist |
| PublisherExitCodes.SuccessNeedsComplete | deploy/backup/s3-atomic-publisher.py:584-634 | No client reports success unless COMPLETE is remote |
| PublisherReconciliation.ReconcilerSettlesCommit | deploy/backup/s3-atomic-publisher.py:584-624 | Once COMPLETE is remote, a reconciler without faults of its own succeeds, whatever others do in between, and the publisher's receipt is then on record |
| PublisherProgress.LeaseHolderCommits | deploy/backup/s3-atomic-publisher.py:554-579 | A publisher past its lease whose own operations are answered always commits |
| PublisherRun.Publish | deploy/backup/s3-atomic-publisher.py:535-581 | The publisher as it runs, with others working between any two operations and any ending of each operation: its execution is a run of the step system, it stops with the outcome it reports, and success leaves its receipt |
| PublisherRun.TakeLease | deploy/backup/s3-atomic-publisher.py:552-560 | The conditional create: past it exactly if it was answered and there was no lease, which is then the only change of the bucket; an answer that there is one is a conflict |
| PublisherRun.GiveUp | deploy/backup/s3-atomic-publisher.py:627-649 | An operation that is not answered: the exit tells provider from internal failure, and only that the commit is unknown from the upload of COMPLETE on; what had been sent is under way, and the bucket is as it was |
| PublisherRun.Stat | deploy/backup/s3-atomic-publisher.py:440-447 | The comparison of sizes passes exactly if it is answered, the object is there and has the size; a missing object is an internal failure, another size a provider failure, and for COMPLETE the commit is unknown |
| PublisherRun.Read | deploy/backup/s3-atomic-publisher.py:448-454 | The comparison of contents passes exactly if it is answered and the object has the bytes of the snapshot |
| PublisherRun.PublishMember | deploy/backup/s3-atomic-publisher.py:564-568 | Upload, size and content of one member, as steps of the system |
| PublisherRun.WriteReceipt | deploy/backup/s3-atomic-publisher.py:573-579 | The receipt comes last and carries the validated hash and the hash of the lease; success is reported exactly if the write is answered |
| PublisherRun.PublisherLeavesReachable | deploy/backup/s3-atomic-publisher.py:535-581 | A bucket left by a publisher is a reachable state of the step system, so all theorems apply to it |
| ReconcilerRun.Reconcile | deploy/backup/s3-atomic-publisher.py:584-624 | The reconciler as it runs: a run of the step system that ends with the outcome it reports; success leaves a receipt of the run |
| ReconcilerRun.FetchLease | deploy/backup/s3-atomic-publisher.py:597-599 | The download of the lease succeeds exactly if both answers come, it is there both times and has the size seen before; what is remembered is its content |
| ReconcilerRun.FindKind | deploy/backup/s3-atomic-publisher.py:600-606 | Past the two lookups exactly if both are answered and exactly one of the manifests exists; that one decides which members are read |
| ReconcilerRun.FetchMember | deploy/backup/s3-atomic-publisher.py:457-466 | One download: it succeeds exactly if size and content are answered, the object exists both times, and the content has the size that was seen before it; what is remembered under the name is the content |
| ReconcilerRun.Conclude | deploy/backup/s3-atomic-publisher.py:612-622 | Success exactly if the last operation is answered, the downloaded group validates and the lease has 32 bytes; the receipt then carries the hashes of both |
| ReconcilerRun.ReconcilerLeavesReachable | deploy/backup/s3-atomic-publisher.py:584-624 | A bucket left by a reconciler is a reachable state of the step system, and its success means that COMPLETE is remote |
| GroupRules.PutOrderListsMembers | deploy/backup/s3-atomic-publisher.py:34-47 | The upload order lists every member of a kind once and COMPLETE last |
| GroupRules.FetchOrderListsMembers | deploy/backup/s3-atomic-publisher.py:607-610 | The download order lists every member of a kind once |
| GroupRules.SameManifestSamePayload | deploy/backup/s3-atomic-publisher.py:286-328 | Two validated snapshots of one kind with the same manifest agree on every payload the manifest binds and on the marker |
| KeySpace.TargetsAreDistinct | deploy/backup/s3-atomic-publisher.py:245-270 | For accepted destinations and valid run ids, equal object targets mean the same alias, bucket, prefix, run and member; a member is never a lease |
| KeySpace.TargetIsPath | deploy/backup/s3-atomic-publisher.py:267-270 | The concatenated target spells exactly the slash-joined path of its parts |
| Scalars.RunIdIff | deploy/backup/s3-atomic-publisher.py:29 | Run ids are exactly a letter or digit, 3 to 126 letters, digits or hyphens, and a letter or digit |
| Destinations.DestinationIff | deploy/backup/s3-atomic-publisher.py:245-270 | Exactly which destinations are accepted, and what they mean: scheme, no user, query or escape, no dot segments, bucket and prefix of s3 and minio, the characters and lengths of alias and bucket |
| Destinations.OrderOfNames | deploy/backup/s3-atomic-publisher.py:34-47 | The names of the objects of either kind, in the order they are uploaded and downloaded |
| Destinations.NamesAreSorted | deploy/backup/s3-atomic-publisher.py:607-610 | Downloads follow the sorted names |
| SnapshotCopy.WriteAll | deploy/backup/s3-atomic-publisher.py:161-167 | The whole payload arrives for every schedule of short writes, or a refused write leaves a proper prefix |
| SnapshotCopy.CopyToSnapshot | deploy/backup/s3-atomic-publisher.py:170-185 | For every chunking of reads and writes: the copy equals the source, and size and digest are those of the whole content |
| Retention.Plan | deploy/backup/backupctl.py:453-479 | The planner with its checks in order and its loop computes the specified plan or refusal |
| Retention.CollectDeletions | deploy/backup/backupctl.py:472-479 | The loop over the valid entries collects deletions in order and stops at the first error |
| RetentionTheorems.RefusalIff | deploy/backup/backupctl.py:454-470 | The checks before the loop pass exactly on acceptable catalogs: distinct positive orders, one policy, newest COMPLETE valid, two valid points |
| RetentionTheorems.ReplanAfterDeleting | deploy/backup/backupctl.py:453-479 | After deleting any part of a plan, planning again succeeds and plans exactly the rest |
| RetentionTheorems.PruneIsReentrant | deploy/backup/backupctl.py:453-479 | Re-planning after any prefix of the deletions returns the remaining suffix, exactly when no run id was planned twice |
| PruneCommand.ReentrantIff | deploy/backup/backupctl.py:471-479 | The same as a condition on the catalog: no two valid, unprotected, expired restore points carry one run id |
| RetentionTheorems.CompletedPruneIsEmpty | deploy/backup/backupctl.py:1437-1445 | A completed prune plans nothing more |
| RetentionTheorems.TwoNewestSurvive | deploy/backup/backupctl.py:471-479 | Removing entries other than the two newest valid ones keeps those two and the newest COMPLETE one |
| PruneCommand.PlanIff | deploy/backup/backupctl.py:453-479 | Exactly when there is a plan, on the entries: a positive policy, every COMPLETE entry with a positive order of its own and this very window, the newest COMPLETE one valid, two valid ones, valid run ids and readable cutoffs; and the plan lists, oldest first, exactly the valid entries older than the window that do not carry the id of one of the two newest |
| PruneCommand.DuplicateRunIdsArePlannedTwice | deploy/backup/backupctl.py:471-479 | A catalog with one run id twice is accepted and its prune is not re-entrant |
| PruneCommand.CommandPrune | deploy/backup/backupctl.py:1437-1445 | Whatever deletion fails, exactly a prefix of the plan is gone, and with distinct ids the next plan is the rest; a refused plan deletes nothing |
| PruneInterleaving.PublishExtendsPlan | deploy/backup/backupctl.py:471-479 | Publishing a fresh valid group extends the old plan at its end by the group it displaces, if expired |
| PruneInterleaving.InterleavedPruneKeepsNewest | deploy/backup/backupctl.py:1437-1445 | Over every interleaving of publications and planned deletions, on every catalog that can be planned, the two newest valid groups and the newest COMPLETE one survive, and exactly a prefix of the plan is gone |
| PruneInterleaving.InterleavedPruneIsSafe | deploy/backup/backupctl.py:1437-1445 | With distinct run ids and readable cutoffs of the two newest valid groups: planning again amid any such interleaving never fails and gives the rest of the plan followed by what expired since |
| PruneInterleaving.TwoPublicationsPlanIff | deploy/backup/backupctl.py:471-479 | With distinct run ids, planning again after each of two publications succeeds exactly when the two groups that were the newest have readable cutoffs |
| LedgerRules.StagedLedgerIsAccepted | deploy/backup/backupctl.py:1579-1652 | Every ledger group the archive command stages is accepted by the validator under the same key and history for every cutoff not later than its own |
| LedgerRules.AcceptedLedgerFields | deploy/backup/backupctl.py:510-565 | What acceptance of a ledger group establishes: canonical signed manifest, its run, the archive's hash, a cutoff no earlier than asked for |
| LedgerAcceptance.ArchiveAcceptedIff | deploy/backup/backupctl.py:510-565 | A ledger group is accepted exactly when its manifest is canonical, signed with a key of 32 bytes, marked, has exactly eight fields that name group and active key, and records hash and size of the archive; its count of entries is natural and its cutoff no earlier than asked for |
| LedgerAcceptance.HistoryAcceptedIff | deploy/backup/backupctl.py:497-507 | A key history is accepted exactly when it has two versions or more, exactly one of them is active and is the active key version, and nothing in it is screened out |
| LedgerAcceptance.RestoreProofAcceptedIff | deploy/backup/backupctl.py:599-626 | A restore proof is accepted exactly when it is signed, has exactly eight fields, and names archive, business run, generation, cutoff and the number of restored entries |
| LedgerAcceptance.LedgerStagedIff | deploy/backup/backupctl.py:1589-1639 | A ledger group is staged exactly when bucket, capabilities, destinations, history, run, archive, cutoff and summary are in order, and consists of exactly these bytes |
| ManifestScan.CleanIff | deploy/backup/backupctl.py:206-221 | The screen passes exactly the documents that hold, at any depth, no field of a forbidden name and no text that leaks |
| LedgerRules.SameLedgerManifestSameArchive | deploy/backup/backupctl.py:536-556 | Accepted ledger groups with the same manifest bytes are one run with the same archive |
| LedgerRules.RestoreProofBindsOneRestore | deploy/backup/backupctl.py:599-626 | One signed restore proof cannot stand for two archives, two business runs or two generations |
| LedgerRules.OwnSignatureVerifies | deploy/backup/backupctl.py:997-1014 | A signature file written with a key of 32 bytes or more verifies under that key, and the marker file marks its payload |
| ReferenceProof.ProofCertifiesEquality | deploy/backup/backupctl.py:1064-1084 | The certificate is accepted exactly when the inventory file is canonical and the database refers to exactly the stored objects; then the count is the number of objects |
| ReferenceProof.ProofAcceptedIffHashesAgree | deploy/backup/backupctl.py:432-450 | The same on the level of hashes: symmetric difference empty and inventory hash that of the file |
| ReferenceProof.InventoryFitIff | deploy/backup/backupctl.py:1065-1070 | Inventories fit for comparison: every object with its own SHA-256 key hash |
| ReferenceProof.KeyCount | deploy/backup/backupctl.py:1071-1073 | Comparing the size of the set with the length detects exactly the repeated keys |
| BackupAcceptance.CertificateAcceptedIff | deploy/backup/backupctl.py:432-450 | A certificate is accepted exactly when it has its seven fields: pinned validator and query, the inventory hash, expected and checked count equal to a natural number, no mismatch |
| BackupAcceptance.BuiltCertificateIs | deploy/backup/backupctl.py:1064-1084 | The certificate that is built: distinct non-empty keys, an inventory fit for comparison, and as mismatches the number of hashes on one side only |
| BackupManifest.BuiltManifestOkIff | deploy/backup/backupctl.py:224-309 | Exactly when the manifest validator accepts a manifest of the producer's form |
| BackupAcceptance.ManifestAcceptedIff | deploy/backup/backupctl.py:224-309 | Every document: the manifest validator accepts exactly those with the twelve fields of a complete restore point on a schedule of 12 hours, each part with exactly its fields and sound |
| BackupAcceptance.BackupAcceptedIff | deploy/backup/backupctl.py:1087-1124 | A fetched group is accepted exactly when its name is its run, its manifest is acceptable, canonical, signed and marked, and records hash and size of dump and snapshot, hash and count of the inventory, and the number of entries the dump lists |
| BackupAcceptance.InventoryCountedIff | deploy/backup/backupctl.py:1047-1061 | An inventory is counted exactly when it has schema 1 and lists objects of three fields, two digests and a size |
| BackupGroup.StagedBackupIsAccepted | deploy/backup/backupctl.py:1280-1416 | Producer meets verifier: every staged backup group is accepted under the same key with a lister that answers alike |
| BackupAcceptance.BackupStagedIff | deploy/backup/backupctl.py:1280-1403 | A backup group is staged exactly when everything before it is in order, and consists of the delivered payloads, the manifest of the run, its signature and its marker |
| BackupAcceptance.PairedIff | deploy/backup/backupctl.py:568-596 | The ledger evidence of a backup: exactly for a whole ledger group no older than the backup, with its run, cutoff, manifest hash and all key versions |
| BackupGroup.StagedBackupReferencesMatch | deploy/backup/backupctl.py:1346-1359 | A staged group certifies that the database referred to exactly the objects its inventory lists, and to as many |
| BackupGroup.SameManifestSameContents | deploy/backup/backupctl.py:1087-1124 | Accepted groups with the same manifest bytes are one run with identical dump, snapshot and inventory |
| BackupGroup.SameSignatureSameContents | deploy/backup/backupctl.py:1005-1014 | Under one key, a manifest signature stands for one dump, one snapshot and one inventory |
| CatalogCheck.CheckLedgers | deploy/backup/scheduled-backup.py:506-576 | The verification loop succeeds exactly when every point's evidence and fetched ledger archive agree and no two points share a run id |
| CatalogCheck.CheckCatalog | deploy/backup/scheduled-backup.py:456-588 | The whole check yields a freshness record exactly for a validated group of the run and a catalog that satisfies it, with the run, cutoff and number of valid points |
| CatalogAcceptance.CatalogAcceptedIff | deploy/backup/scheduled-backup.py:456-588 | Freshness is recorded exactly when the run's own group is whole, the catalog is a list of objects that can be planned, at least two are points, each is backed by its ledger archive, no two share a run id, and the newest has the run id and cutoff of this run's manifest |
| CatalogAcceptance.PointAcceptedIff | deploy/backup/scheduled-backup.py:506-575 | A point passes exactly when the fetched group is the ledger archive it names, of its own cutoff, with the recorded manifest hash, distinct known key versions, and the signing version among them |
| CatalogAcceptance.EntryIs | deploy/backup/backupctl.py:458-479 | How the planner sees a catalog item, field by field |
| CatalogTheorems.RecordedRunIsNewest | deploy/backup/scheduled-backup.py:456-588 | A record's run and cutoff are those of the newest COMPLETE entry of the whole catalog; at least two valid points, distinct run ids, and behind each a verified ledger archive of equal cutoff and recorded manifest hash |
| CatalogTheorems.FreshnessReadsBack | deploy/backup/scheduled-backup.py:222-267 | The freshness check reads back what was recorded: the age, refused exactly beyond the page threshold or the future skew |
| CatalogAcceptance.FreshnessAcceptedIff | deploy/backup/scheduled-backup.py:222-267 | For every stored document: an age is reported exactly for schema 2 with these four fields, two points or more, a run id and a time within skew and threshold |
| SchedulerTheorems.StagesRunJournaled | deploy/backup/scheduled-backup.py:390-401 | Whenever a stage is started, the durable journal names exactly that run and that stage as running |
| SchedulerStages.StagesInOrder | deploy/backup/scheduled-backup.py:402-576 | In every history an invocation has executed a beginning of ledger_publish, ledger_fetch, business_publish, business_fetch, business_catalog and one catalog_ledger_fetch per point, each once; one that succeeded has executed them all |
| SchedulerStages.FailedStageIsJournaled | deploy/backup/scheduled-backup.py:596-614 | A handled failure of a stage turns its journal from running to reconciliation_required exactly for exit codes 75 and 76 of ledger_publish and business_publish, and to failed otherwise |
| SchedulerTheorems.RunsAreSeparated | deploy/backup/scheduled-backup.py:356-628 | Over any history with crashes anywhere, stages of two invocations are separated by a freshness record naming the earlier run or by an operator's removal of the journal |
| SchedulerTheorems.UnfinishedRunStaysJournaled | deploy/backup/scheduled-backup.py:596-628 | A run that executed a stage and has neither recorded success nor been cleared is named by the journal, which turns every later invocation away |
| SchedulerTheorems.FreshnessIsJustified | deploy/backup/scheduled-backup.py:581-588 | The stored freshness record was written by an invocation about its own run, and the catalog and ledger archives that very invocation had fetched justify it |
| SchedulerTheorems.SuccessIsJustified | deploy/backup/scheduled-backup.py:581-628 | An invocation that ends in success has recorded its own freshness, justified by what it had fetched itself |
| SchedulerTheorems.LockHolderCompletes | deploy/backup/scheduled-backup.py:304-628 | An invocation with the lock, no journal and an acceptable catalog succeeds, whatever others do |
| SchedulerFailures.FailedRunRecordedIff | deploy/backup/scheduled-backup.py:164-190 | Over all histories: a failed run has advanced the freshness record exactly when it broke off while reporting, while removing the journal, or in a freshness write that took effect for an accepted catalog |
| SchedulerFailures.FailedRunKeepsFreshness | deploy/backup/scheduled-backup.py:596-624 | Every other failed run has left it alone: what is stored is the latest record, and that is another invocation's |
| SchedulerFailures.ChildOrValidationFailureKeepsFreshness | deploy/backup/scheduled-backup.py:104-112 | A stage that exits badly or is killed, and a catalog that is refused, leave the previous freshness record unchanged, at once and whatever follows |
| SchedulerFailures.WhoWrites | deploy/backup/scheduled-backup.py:166-169 | Exactly which steps change the freshness record: an operation at the freshness write, with an accepted catalog, that takes effect |
| SchedulerFailures.FailedRunMayAdvanceFreshness | deploy/backup/scheduled-backup.py:164-190 | From every history that leaves no lock and no journal, for every accepted catalog, a run can fail after its record is written: the journal says failed while the record has advanced |
| AcceptedCatalog.FoundIsAccepted | deploy/backup/scheduled-backup.py:478-588 | A catalog that truthfully lists an earlier run and the run itself, with the ledger archives behind them, is accepted |
| AcceptedCatalog.SomeFailedRunHasAdvanced | deploy/backup/scheduled-backup.py:164-190 | There is a history from the first step on that ends with a failed run whose own record is stored |
| SchedulerRun.RunOnce | deploy/backup/scheduled-backup.py:304-628 | The invocation as it runs on the state directory, for every ending of every operation: a run of the step system; success leaves no journal and the verified record of this run |
| SchedulerRun.TakeTheLock | deploy/backup/scheduled-backup.py:271-284 | Past the lock exactly if it was free and there is no journal; neither way touches the journal or the freshness record |
| SchedulerRun.JournalStage | deploy/backup/scheduled-backup.py:390-400 | The journal of a stage is on disk before the stage can start; if its write fails, the journal is what the handler or the write has left |
| SchedulerRun.ExecuteStage | deploy/backup/scheduled-backup.py:596-624 | It succeeds exactly if the stage does; a handled failure leaves, if that write takes effect, this stage and reconciliation_required exactly for exit codes 75 and 76 of the two publish stages, failed otherwise; else the journal stays as it was |
| SchedulerRun.RecordSuccess | deploy/backup/scheduled-backup.py:577-588 | Success exactly for an accepted record of this run whose write is answered; the record on disk changes exactly if an accepted one takes effect; a refusal or a handled failure leaves the journal as failed at the last stage |
| SchedulerRun.RemoveJournalLast | deploy/backup/scheduled-backup.py:625-628 | The journal is removed last, only after success was recorded; success exactly if the removal is answered |
| RestoreBinding.StartedIsNotBound | deploy/backup/backupctl.py:681-697 | The record of a restore that has only begun is refused |
| RestoreBinding.RestoredIsBound | deploy/backup/backupctl.py:681-705 | The record of a completed restore is accepted and binds run, generation, restore id and both manifest hashes |
| RestoreBinding.BindingIff | deploy/backup/backupctl.py:681-705 | For every document: it binds later steps exactly in state restored_traffic_closed with traffic closed, two run ids, a UUID and two digests |
| Recovery.BeginClosedRecovery | deploy/backup/backupctl.py:793-814 | Traffic is closed and the restore recorded as started, in that order, for every ending of the three writes |
| Recovery.CommandRestore | deploy/backup/backupctl.py:1449-1576 | Wherever a restore stops, its effects are a beginning of the one order, every verification passed along the way had succeeded, and the evidence on disk says how far it came; it succeeds exactly if every verification does, every client and every write |
| Recovery.ComesAfter | deploy/backup/backupctl.py:1449-1576 | What comes before what in that order: traffic closed and the start recorded before anything is fetched, the group judged before a ledger is selected, the archive judged before it is restored, ledger restored, attested and proven before the database is touched, the objects after it, the restored record last |
| Recovery.FinalRecordIs | deploy/backup/backupctl.py:1560-1573 | What the record of a completed restore says |
| Recovery.EvidenceAcceptedIffRestored | deploy/backup/backupctl.py:681-705 | After the start is recorded, the evidence is accepted by later steps exactly when every step has been taken |
| Recovery.DatabaseRestoreIsEarned | deploy/backup/backupctl.py:1508-1549 | Once the database restore has begun: the group is valid, the selection names a ledger archive, that is valid and no older than the backup, and its proof is bound to archive, run and generation |
| ChildEnvironment.EnvironmentExists | deploy/backup/backupctl.py:936-958 | The child environment exists for every valid binding and adds exactly run, generation and restore id, so nothing can fail between the protocol's handlers |
| ChildEnvironment.EnvironmentIff | deploy/backup/backupctl.py:936-958 | An environment is built exactly when every name is plain and names no secret and every value is non-empty without NUL; a name has the last value given |
| ChildEnvironment.SensitiveIff | deploy/backup/backupctl.py:50-53 | The names of secrets: those that begin with AWS_ or contain one of seven words |
| Redeletion.RunProtocol | deploy/backup/backupctl.py:1655-1738 | Past its binding step the protocol succeeds exactly when nothing fails, and leaves the verified record then and otherwise the failure record naming the stage; success needs both evidence files written by this run's worker, old ones are gone after the preflight, and a verified record never appears unproven |
| Redeletion.VerifiedMeansReconciled | deploy/backup/backupctl.py:708-750 | Exactly what a verified record stands for: complete evidence of these fields written by this run's worker, signed and bound to this restore read twice, objects_absent, database_redacted, ledger_consistent and recovery_completed all true, and one positive count prepared by the CLI, prepared by the worker and completed |
| Redeletion.FailureIs | deploy/backup/backupctl.py:1664-1738 | Which failure is recorded: the first of release preflight, evidence preflight, CLI, worker or evidence |
| Redeletion.ClosedRecordsAreNotBound | deploy/backup/backupctl.py:766-790 | Neither closed record can pass for a completed restore |
| Redeletion.ClosedRecordsAre | deploy/backup/backupctl.py:766-790 | What both closed records say |
| Percent.ComponentRoundTrip | frontend/src/appRouter.js:143 | decodeURIComponent undoes encodeURIComponent on every string |
| Percent.FormRoundTrip | frontend/src/appRouter.js:141 | Reading a form-encoded value undoes writing it, for every string |
| Encodings.DecodesOnlyEncoded | frontend/src/appRouter.js:143 | Decoding accepts a character exactly where its shortest UTF-8 form stands |
| Encodings.MalformedIs | frontend/src/appRouter.js:141 | How many malformed bytes one replacement character of a form value stands for: those that could still have become a character |
| Encodings.Utf8Is | frontend/src/appRouter.js:143 | The bytes of a character in the four forms of section 3 of RFC 3629 |
| Encodings.EncodedCharIs | frontend/src/appRouter.js:143 | Which characters encodeURIComponent leaves alone, and that all others become the escapes of their bytes |
| Encodings.FormByteIs | frontend/src/appRouter.js:141 | Which bytes a form-encoded value leaves alone, the plus sign for a space, and the escapes of the rest |
| Query.QueryRoundTrip | frontend/src/appRouter.js:52 | Reading a query string undoes writing it, for every list of pairs |
| RouterPrinters.PrintCandidateList | frontend/src/appRouter.js:121-131 | The path printed step by step parses back to exactly the normalised filters |
| RouterPrinters.PrintCandidateDetail | frontend/src/appRouter.js:133-144 | The printed path parses back to the candidate, tab, approval and safe return path exactly for ids other than the empty one, "." and ".." |
| RouterPrinters.PrintOfferDetail | frontend/src/appRouter.js:146-152 | The printed path parses back to the offer, approval and safe return path for exactly those ids |
| RouterPrinters.PrintScreeningTask | frontend/src/appRouter.js:154-162 | The printed path parses back to the task, trimmed query and status for exactly those ids |
| RouterTable.CandidatePages | frontend/src/appRouter.js:88-89 | Exactly which paths and parameters lead to a candidate, with tab and approval |
| RouterTable.CandidateListPage | frontend/src/appRouter.js:73-87 | The candidate list with the default of every filter |
| RouterTable.JobPages | frontend/src/appRouter.js:63-64 | Exactly which paths lead to a job or to its editor |
| RouterTable.TaskPages | frontend/src/appRouter.js:67-71 | Exactly which paths and parameters lead to a screening task, with query and status |
| RouterTable.OfferPages | frontend/src/appRouter.js:59-60 | Exactly which paths lead to an offer, with its approval |
| RouterTable.PublicPages | frontend/src/appRouter.js:55-56 | Exactly which paths lead to a public offer; a token that does not decode is an invalid one, not an error |
| RouterTable.InterviewPages | frontend/src/appRouter.js:93-94 | Exactly which paths lead to rescheduling an interview or to its feedback |
| RouterTable.DetailParamsAre | frontend/src/appRouter.js:133-144 | The parameters of a detail path, in order, with the slug of every tab |
| RouterTable.ListParamsAre | frontend/src/appRouter.js:121-131 | The parameters of the list path, in order: the trimmed query and every filter that is not its default |
| RouterTable.SettingsPathIs | frontend/src/appRouter.js:164-170 | Where each pair of settings labels leads |
| RouterTable.SafeReturnIs | frontend/src/appRouter.js:45-48 | A return path is kept exactly when it begins with one slash and not with two |
| RouterTable.OfferParamsAre | frontend/src/appRouter.js:146-152 | The parameters of an offer path, in order |
| RouterTable.TaskParamsAre | frontend/src/appRouter.js:154-162 | The parameters of a task path: the trimmed query and the slug of a status |
| RouterTheorems.ListRoundTrip | frontend/src/appRouter.js:121-131 | The list path parses to the normalised filters: query trimmed, defaults where nothing was chosen |
| RouterTheorems.ListFixedPoint | frontend/src/appRouter.js:73-87 | For every location that parses to a list, printing its filters and parsing again gives the same filters |
| RouterTheorems.DetailRoundTripIff | frontend/src/appRouter.js:133-144 | As a URL, the detail path parses back to id, tab, approval and safe return path exactly for ids that are not empty, "." or ".." |
| RouterTheorems.EmptyIdIsTheList | frontend/src/appRouter.js:41-43 | An empty id or "." leads to the list route instead |
| RouterTheorems.ParentIdIsUnknown | frontend/src/appRouter.js:133-144 | ".." leads to no page |
| RouterTheorems.OfferRoundTripIff | frontend/src/appRouter.js:146-152 | The offer path parses back to the offer, approval and safe return path, exactly for ids that are not empty, "." or ".." |
| RouterTheorems.TaskRoundTripIff | frontend/src/appRouter.js:154-162 | The task path parses back to task, trimmed query and status for exactly those ids; an empty id or "." leads to the task list |
| RouterTheorems.SettingsRoundTrip | frontend/src/appRouter.js:164-170 | A settings path parses back to the section its labels mean; an unsafe return path is dropped on parsing |
| RouterTheorems.NavRoundTrip | frontend/src/appRouter.js:117-119 | Every navigation entry leads to a page of that entry |
| Slots.GetAvailabilitySlotState | frontend/src/ScheduleWorkspace.jsx:74-89 | For start, minutes and buffer minutes: conflict or buffer by the first busy time that the slot meets, or comes nearer than the buffer on either side; with none, available exactly when all have confirmed |
| Slots.SlotStateIff | frontend/src/ScheduleWorkspace.jsx:74-89 | Blocked exactly when some busy interval objects, available exactly when none does and all have confirmed, unconfirmed otherwise |
| Slots.WidenedTestDecides | frontend/src/ScheduleWorkspace.jsx:84-85 | With a non-negative buffer: blocked by a busy time exactly when the slot meets it widened by the buffer on both sides, that is, for proper intervals, shares an instant with it |
| Slots.OrderIndependent | frontend/src/ScheduleWorkspace.jsx:79-87 | Reordering the participants, and the busy times of each, does not change whether a slot is blocked, available or unconfirmed |
| Slots.BlockingIsMonotone | frontend/src/ScheduleWorkspace.jsx:69-77 | A longer slot or a wider buffer never frees what was blocked |
| Slots.NoBufferMeansTrueOverlap | frontend/src/ScheduleWorkspace.jsx:84-85 | Without a buffer, blocked exactly on a shared instant; back to back is allowed |
| Slots.UnreadableNeverBlocks | frontend/src/ScheduleWorkspace.jsx:82-85 | An unreadable date never blocks |
| Slots.SlotMinutesIff | frontend/src/ScheduleWorkspace.jsx:53-57 | The slots of a day, in minutes, are exactly the whole steps from the first hour to the last |
| Slots.SlotTextsIff | frontend/src/ScheduleWorkspace.jsx:53-60 | The padded texts of the slots, read as hours and minutes, name exactly those steps, in order and each once |
| Slots.TimeReadsBack | frontend/src/ScheduleWorkspace.jsx:58 | Every time on or after midnight is read back from its padded text, of five characters before hour 100 |
| EnvFile.ParseEnv | scripts/community_setup.py:22-30 | The reading loop computes the specified dictionary |
| EnvFile.RunSetup | scripts/community_setup.py:84-116 | The setup loops compute the specified file |
| EnvValues.SetupValueIs | scripts/community_setup.py:84-116 | The value of every key of the written file: the setting, else the generated secret on a first run or for a missing, empty or placeholder value, else what was there |
| EnvValues.AssignmentIff | scripts/community_setup.py:24-29 | What a line assigns: exactly trimmed lines that are no comment, cut at their first equals sign, both sides trimmed |
| EnvValues.SettingsAre | scripts/community_setup.py:108-115 | The six settings and their values |
| EnvTheorems.ParsedIsWellFormed | scripts/community_setup.py:22-30 | Whatever a file holds, what is read from it is well-formed |
| EnvTheorems.RoundTripIff | scripts/community_setup.py:41-45 | Reading what was written gives the same map exactly for well-formed maps |
| EnvTheorems.WrittenReadsBack | scripts/community_setup.py:41-45 | What is read from a file whose values assign no other keys: the same keys in the order written, one-line values trimmed, longer ones as their last own line says |
| CommunitySetup.CommunitySetupIsIdempotentIff | scripts/community_setup.py:84-116 | For every example file: running the setup again writes the same file byte for byte, whatever the `.env` file holds, exactly when every key that a further line of the slug or name assigns is listed in the example and is a setting, or a secret listed after it |
| CommunitySetup.OneEnvFileIff | scripts/community_setup.py:84-116 | For one given `.env` file or none: running the setup again writes the same file exactly when every key that a further line of the slug or name assigns was written already and is a setting or is read with the value written, and the unlisted keys are read in the order written |
| CommunitySetup.EveryFileIff | scripts/community_setup.py:84-116 | Over all example files: exactly for slugs and names no further line of which assigns another key |
| EnvExact.SetupIsIdempotentIff | scripts/community_setup.py:41-45 | The same condition for any settings and any generated secrets |
| EnvExact.OneFileIff | scripts/community_setup.py:84-116 | The exact condition for one given `.env` file, for any settings and any generated secrets |
| EnvExact.SettledIsIdempotent | scripts/community_setup.py:105-116 | Under that condition the second run keeps every secret, key and place, although it draws new secrets |
| EnvSetup.SecretsAreKept | scripts/community_setup.py:105-107 | A secret that is present and no placeholder is never replaced |
| CommunitySetup.LineBreakInName | scripts/community_setup.py:108-116 | An organization name of two lines, the second an assignment: running again is harmless exactly when the assigned key is so placed |

## Left out

- PublisherReconciliation.ReconcilerSettlesCommit: the reconciler's receipt file is assumed not to exist yet and its parent directory to be usable; a refused local file is one of the faults the lemma excludes.
- PublisherTheorems.CompleteMeansWholeGroup: object versions, lifecycle rules and writers that ignore the lease are not modelled.
- Recovery.CommandRestore: the fetched files are taken to stay as they were when verified until the restore has read them.
- SchedulerTheorems.StagesRunJournaled: an external stage is recorded when it starts; a child process that outlives a killed coordinator is not modelled.
- SchedulerRun.RecordSuccess: the run's own group and each restore point are judged here, whereas scheduled-backup.py judges them between stages (lines 456-462 and 505-575); a refusal there appears in the model as that stage failing, or later, with the last stage in the journal.
- Redeletion.RunProtocol: only the worker is taken to write the evidence files, the CLI is not told their paths; exceptions outside the classes its handlers name, for instance an attribute error on a document of the wrong type, are not modelled.
- Slots.OrderIndependent: which of "conflict" or "buffer" is reported for a blocked slot depends on the order of the busy times and is left open there; Slots.GetAvailabilitySlotState fixes it.
- The publisher and the backup command are verified apart, each against its own member list. Their file names differ (s3-atomic-publisher.py lines 34-47, backupctl.py lines 1318-1320 and 1612-1613), and backupctl.py lines 1830-1832 turn the publisher's exit codes 75 and 76 into 1 while the coordinator looks for 75 and 76; so a stage's exit code is a free input of the scheduler model.
- Archives signed before a key rotation: the validator demands the active key version (backupctl.py line 547), and the history is fixed within a model run.
- The contents of external calls: the object-store client's command line and its JSON answers, pg_dump, pg_restore, psql, openssl, Docker and the destination clients.
- Cryptography and the JSON encoder themselves; NaN and infinite numbers, duplicate keys, and numbers nested inside compared values (numbers are compared by value at the top of a comparison only).
- File-system hardening: symbolic links, junctions, inodes, permissions, Windows branches, secret-file copies, path escapes; the checks whose only effect is to refuse are one Boolean input (`elsewhere`, `guard`, `settings`).
- Off-host destination checks, business bucket lists, image names, disposable-project guards, drill evidence and the traffic gate command: single-branch checks.
- safe_extract_business_snapshot and secure_secret_copies: their writes do not loop over short writes, so no equality of contents can be claimed.
- The run ids of one scheduled run are given to the model; their random token is not.
- Lone surrogates in JavaScript strings, labels such as "constructor" that JavaScript finds on every object's prototype, and what a browser makes of backslashes, blanks and other hosts in a path it is given.
- Draft storage, safeNavigateBack, React components, dialogs, polling and request cancellation.
- community_setup.py after the file is written: Docker, migrations, waiting for readiness; and the random generation of secrets, of which only usability (non-empty, trimmed, one line, no placeholder) is taken.
- A run id or another text that happens to consist of 64 hexadecimal digits is a text in the model and never equals a digest.
