# Formal model of the fuzzing pipeline's own logic

This project models, in Dafny, the logic that the MPC fuzzing harness and its
scripts implement themselves, and proves properties of it for all inputs, all
runs and all interleavings. The signing library, the hash functions, GPG and the
operating system are parameters: every result holds whatever they do, unless a
hypothesis says otherwise.

Check everything with `dafny verify dfyconfig.toml`.

## What is modelled

* **The private pool** (`PoolTree`, `PoolSweep`, `PoolLegacy`, `PoolPublish`,
  `PoolPublishLaws`, `PoolGate`, `PoolProtocol`, `PoolSessions`, `PoolMerge`,
  `PoolProgress`, `PoolExamples`, on the names of `BrainPaths` and `PathTexts`). Publishers build a
  branch on the pool they fetched; aggregators merge branches into the pool and
  push only if the head has not moved. The protocol is a state machine in which
  any number of both, and any other writer of ingest references, are interleaved.
* **The corpus window** (`Inventory`, `Windows`, `BucketLaws`, `ScanReasons`). A scan with early rejection,
  and a schedule by remainder and quotient of `wave * count + shard`.
* **The dual ceremony** (`SigningStore`, `DualSession`, `DualSteps`, `DualRuns`,
  `DualIsolation`, `DualVerdict`, `VerdictLaws`). Two five-round ceremonies over one store per
  player, turns granted by arbitrary bytes, every service call an arbitrary
  outcome; then the verdict of a run and the counters of a whole campaign.
* **The telemetry chain** (`Telemetry`, `RecordLaws`, `ClaimProtocol`,
  `Totalling`, `Overlap`, `Reports`, `ReportReasons`, `Validator`, `GateLaws`,
  `GateReasons`, `DualGate`, `Evidence`, `EvidenceLaws`). Claims by exclusive create, counters,
  publication, the promotion gate, and canonical evidence.
* **Codecs and mutators** (`Snapshot`, `SnapshotIO`, `SnapshotLayout`, `DetRand`,
  `Mutators`, `MutatorLaws`).

`Sequences`, `Arithmetic` and `Names` hold the shared facts about folds, sums,
permutations, sorting and division.

Code that changes state is modelled by methods and classes proved against a
specification function; the laws are lemmas about that function. The modules
named `...Laws`, `...Steps`, `...Texts`, `...Reasons` and `...Layout`, and
`PoolLegacy`, state what such a function means on literal text, characters,
bytes and single calls, without using it on both sides.

## Where the code does not do what it says

The lemmas named here give a concrete input or run that shows it, and the exact
condition under which the promise holds.

* The mutators are documented to return true only if they changed something;
  zeroing a buffer of zeros returns true (`ZeroingZerosIsReported`,
  `AppliedChangesIff`).
* The extra map key is documented to name a player that does not sign; a player
  id that is listed twice can make it name a signer that has no entry yet
  (`RepeatedPlayerAddsSigner`, `ExtraKeyNamesSignerIff`). It cannot in the driver,
  whose maps hold an entry for every signer (`ExtraKeyNeverASigner`).
* The evidence check is described as accepting only what the sanitiser would
  emit; it does not compare the builds of the jobs and accepts a parallelism of
  zero (`CheckAcceptsDisagreeingBuilds`,
  `CheckAcceptsZeroParallelism`, `EmittedIff`).
* A snapshot file whose threshold words exceed a byte is read with narrowed
  values (`NarrowingLosesTheThreshold`,
  `RewriteIff`).
* An unknown verdict is refused after three counters have moved
  (`UnknownVerdictOpensTheEquations`, `RecordClosesIff`); the callers stop there, so no such document is published
  (`ClaimSafety`).
* A finding is counted and signalled only if the run counts as applied, is no
  harness fault, and the record is published: a broken isolation is lost when no
  ceremony gets through a round (`IsolationFindingCanBeDropped`), and a harness
  fault hides a finding of a run that did interleave (`FaultHidesFinding`). The
  exact condition is `FindingReportedIff`; for the signature oracles it comes
  down to both ceremonies having left signatures (`SignatureFindingsAreReported`).
* The publisher validates units of up to 4 MiB, while the reader and the capacity
  gate refuse units above 1 MiB: such a branch merges and then keeps every sweep
  of its run from being pushed (`OversizeUnitIsPublished`,
  `OversizeBranchIsStuck`, `OversizeUnitBlocksPush`). What a push needs exactly is `PushEnabledIff`.
* The aggregator tests the mode of every file of a branch, also of those the
  pool already holds, and refuses empty documents; the publisher does neither.
  A pool with one file of another mode makes every branch built on it unmergeable
  (`ExecutableFileBlocksBranch`, `BuiltBranchMerges`, `BranchMergeable`).
* The promotion gate asks that the sequential schedule cell be reached, and no
  run of the dual entry point is ever sequential, so the gate cannot open on
  telemetry of that lane (`DualCampaignsNeverPass`, `MissedCellBlocks`).

## Model

| member | source | states |
|---|---|---|
| PoolTree.StageItemsCommute | scripts/aggregate_ingest.sh:93-147 | Two tree entries can be staged in either order: the same refusals and the same staged tree, also when they name one path. |
| PoolTree.EvidencePathInjective | scripts/aggregate_ingest.sh:121-136 | An incident or telemetry path can be claimed by one run/attempt/harness/shard tuple only, and as one kind of document only. |
| PoolSweep.MergeBranch | scripts/aggregate_ingest.sh:93-147 | The inner loop, with its early exits, computes the fold of the per-entry step over the branch listing. |
| PoolSweep.Aggregate | scripts/aggregate_ingest.sh:56-148 | The loop over references computes the sweep: unreadable names stop it, other runs are skipped, a second commit for a remote-tracking name that is taken stops it, the rest is merged. |
| PoolSweep.ListingOrderIrrelevant | scripts/aggregate_ingest.sh:93-147 | The order in which a branch lists its entries does not matter. |
| PoolSweep.SweepConfluent | scripts/aggregate_ingest.sh:56-148 | Confluence: permuting the references changes neither whether the sweep succeeds nor the pool it stages. |
| PoolSweep.FoldSucceedsIff | scripts/aggregate_ingest.sh:93-147 | Merging succeeds exactly under an order-free condition on the set of entries, and then the result is the base plus exactly the new entries. |
| PoolSweep.SweepSucceedsIff | scripts/aggregate_ingest.sh:56-148 | A whole sweep succeeds exactly when every reference parses, branches of the run that spell one tuple are one commit, and the entries of the run are pairwise compatible; it stages exactly those. |
| PoolSweep.SweepIdempotent | scripts/aggregate_ingest.sh:99-102 | A second sweep of the same references, on any pool that has grown from the first result, stages nothing. |
| PoolLegacy.ParseRefIff | scripts/brain_paths.sh:84-142 | A reference is read, as a given tuple, exactly when it is the canonical text of that tuple or the old text without a harness, spelled out character by character. |
| PoolLegacy.OtherRunChangesNothing | scripts/aggregate_ingest.sh:62-67 | A readable reference of another run or attempt, canonical or old, anywhere in the listing, changes neither whether the sweep succeeds nor what it stages. |
| PoolLegacy.OldReferencesAreSkipped | scripts/aggregate_ingest.sh:57-67 | Any reference of the old form with canonical numbers (so any of the branches from before the lanes) leaves every sweep of another run as it is. |
| PoolLegacy.AcceptableIff | scripts/aggregate_ingest.sh:93-147 | An entry passes the comparison exactly when it is a regular file that the pool holds with this content, or one that its tuple may bring and that is not in the way. |
| PoolLegacy.AgreeIff | scripts/aggregate_ingest.sh:112-120 | Two acceptable entries on one path get along exactly when the pool holds the path, or it is a corpus path and both bring one content. |
| PoolLegacy.OneReferenceIff | scripts/aggregate_ingest.sh:62-147 | A sweep of one reference of the run succeeds exactly when each entry of its listing is acceptable, and the pool is then extended by exactly its new entries. |
| PoolLegacy.LegacyPaths | scripts/brain_paths.sh:120-124 | The new corpus entries of an old reference lie under corpus/cmp_ecdsa_online/ and hash to their names; everything else is its own evidence. |
| PoolLegacy.LegacyReferenceIff | scripts/aggregate_ingest.sh:62-147 | The same for an old reference of the run, read as the one harness of its time. |
| PoolPublish.PublishIngest | scripts/publish_ingest.sh:29-146 | The script, with its loops and its audit, pushes exactly the specified tree or nothing. |
| PoolPublish.BuildPublishes | scripts/publish_ingest.sh:79-122 | What is built contains the fetched pool unchanged, differs from it, and adds only units hashed to their name under the job's harness and the job's own incident and telemetry. |
| PoolPublish.PublishKeepsEverything | scripts/publish_ingest.sh:82-122 | The pushed tree holds every validated unit, the bundle and the telemetry file with their exact contents. |
| PoolPublish.AuditNeverRefuses | scripts/publish_ingest.sh:124-138 | The final audit of added paths and the emptiness test are implied by the construction: they never refuse what was built. |
| PoolPublishLaws.PublishedIff | scripts/publish_ingest.sh:79-146 | A startable job is pushed exactly when each unit is held by the pool as a file of mode 100644 or 100755 with its content or is new and clear of the pool, units of one name have one content, both document paths are new and clear, and the telemetry passes its check; what is pushed is the fetched pool plus exactly what was missing. |
| PoolPublishLaws.UnitsIff | scripts/publish_ingest.sh:82-94 | The loop over the units gets through exactly when all of them fit, and adds exactly the missing ones with mode 100644. |
| PoolPublishLaws.StartableIff | scripts/publish_ingest.sh:21-79 | Exactly which invocations get as far as building a tree: a known lane, canonical run and attempt, a shard below 25, a well-named bundle that GPG reads, validated units, and corpus directories that are no files. |
| PoolPublishLaws.UnstartablePushesNothing | scripts/publish_ingest.sh:29-79 | All other invocations push nothing. |
| PoolPublishLaws.ValidatedIff | scripts/materialize_corpus.py:26-54 | The units let through: forty hexadecimal digits that are the hash, 4 MiB each, a hundred thousand and 512 MiB in all, bounds included. |
| PoolPublishLaws.BundleIff | scripts/publish_ingest.sh:37-38 | A bundle is named `incident-`, three digit strings with dashes between them, and `.gpg`. |
| PoolPublishLaws.ShardIff | scripts/publish_ingest.sh:31-34 | A shard is accepted exactly if it is the decimal text of a number below 25. |
| PoolPublishLaws.LaneIff | scripts/brain_paths.sh:57-63 | The three lanes and their harnesses, and no other lane. |
| PoolGate.ListingsAgree | scripts/aggregate_ingest.sh:150-161 | Two scans of one corpus directory, in whatever order, agree on acceptance. |
| PoolGate.GateMakesReadable | scripts/validate_pool_capacity.py:12-15 | One passing capacity gate makes every harness directory acceptable to every later reader. |
| PoolGate.OversizeUnitShutsGate | scripts/materialize_window.py:216-217 | A corpus unit above the cap shuts the gate for the whole pool. |
| PoolProtocol.StepKeepsInv | scripts/aggregate_ingest.sh:41-168 | Every step of any publisher, aggregator or foreign writer keeps the protocol invariant; commits and references only grow. |
| PoolProtocol.RunKeepsInv | scripts/aggregate_ingest.sh:41-168 | The invariant holds in every state of every interleaving from every initial pool. |
| PoolProtocol.PoolSafety | scripts/aggregate_ingest.sh:41-168 | In every interleaving no pool path is lost or changes content, every added path was brought by a reference entitled to it (units hash to their names under that harness), and every pushed pool is readable by the shard reader's scan. |
| PoolSessions.PublisherSession | scripts/publish_ingest.sh:75-146 | In every interleaving, whatever others did since its fetch, a publisher can push exactly when its job yields a tree on the pool that it fetched and its branch does not exist; the push creates exactly that branch and leaves the pool alone. |
| PoolSessions.AggregatorSession | scripts/aggregate_ingest.sh:41-168 | In every interleaving an aggregator can push exactly when nobody pushed since its fetch, its sweep of all references that existed at its listing succeeds on the pool it fetched, the gate opens and the result is new; the push appends exactly that result, which holds every entry of every reference of the run that existed at the listing. |
| PoolSessions.GaveUp | scripts/aggregate_ingest.sh:35-168 | A session that ended early changes nothing and pushes nothing. |
| PoolMerge.OneBranchPerTuple | scripts/brain_paths.sh:99-105 | A published branch without a legacy twin is the only reference that parses to its tuple. |
| PoolMerge.BuiltBranchMerges | scripts/aggregate_ingest.sh:74-147 | On the pool it was built on, a published branch merges exactly when every file of that pool has mode 100644 and its documents are not empty, and what is staged is then exactly the tree that was pushed. |
| PoolMerge.BranchMergeable | scripts/aggregate_ingest.sh:74-147 | A published branch, whatever other references exist: with no hash collision and no legacy branch for its tuple, comparing its tree with the current head reaches no rejecting exit exactly when every file of the pool it was built on has mode 100644 and its documents are not empty; the result then holds every entry of it. |
| PoolMerge.BranchMergeableInEveryRun | scripts/publish_ingest.sh:75-146 | In every later state of every interleaving, however many aggregations happened, the answer is the one settled when the branch was built. |
| PoolMerge.Mergeable | scripts/aggregate_ingest.sh:56-148 | For any of the references in any order, when all listed ones parse, those of the run come from publishers without a legacy twin, and no hashes collide, the sweep on the current head succeeds exactly when each of its branches is ready in that sense, and then brings in every published entry. |
| PoolMerge.OnlyPublishedSuffices | scripts/brain_paths.sh:99-142 | When all references of the run come from publishers, none of them has a legacy twin. |
| PoolMerge.MergeableInEveryRun | scripts/aggregate_ingest.sh:56-148 | The same condition in every state of every interleaving. |
| PoolGate.GateIff | scripts/aggregate_ingest.sh:150-161 | For scans in whatever order, the gate opens on a tree exactly when, for every harness, the entries listed below its corpus directory are well formed, at most 1 MiB each, and together within every cap. |
| PoolGate.ChildIff | scripts/materialize_window.py:208-217 | A corpus entry of the pool is readable exactly if its name is a unit's, it is a regular or executable file, and it has at most 1 MiB. |
| PoolProgress.GateOpensIff | scripts/aggregate_ingest.sh:150-161 | The gate opens on the staged pool exactly when this holds of the current pool and the branches of the run together, read off their listings before the sweep. |
| PoolProgress.PushEnabledIff | scripts/aggregate_ingest.sh:53-168 | Progress: an aggregator that listed published branches can push exactly when nobody pushed since its fetch, the branches are ready, pool and branches fit the caps together, and something is new; after the push every entry of these branches is in the pool. |
| PoolProgress.PushEnabledInEveryRun | scripts/aggregate_ingest.sh:53-168 | The same condition in every state of every interleaving. |
| PoolProgress.OversizeUnitBlocksPush | scripts/aggregate_ingest.sh:150-161 | One unit above 1 MiB in a listed branch of the run: that aggregator cannot push, in any state, whatever the hash function, the other branches and its scans are. |
| PoolPublish.OneUnitIsPublished | scripts/publish_ingest.sh:79-146 | A startable job with one unit and no telemetry is published on every pool where nothing is in the way of its two paths. |
| PoolExamples.OversizeUnitIsPublished | scripts/materialize_corpus.py:26-34 | For every hash function, a job whose pushed tree holds a unit of 2 MiB, named by its hash: the publisher's own cap is four times the reader's, and the branch merges to exactly that tree. |
| PoolExamples.OversizeBranchIsStuck | scripts/aggregate_ingest.sh:150-161 | In no state can an aggregator push that listed this branch for its run. |
| PoolExamples.ExecutableFileBlocksBranch | scripts/aggregate_ingest.sh:98-102 | For every hash function, a job that is published on a pool with one executable file, and whose branch no listing of it merges. |
| PoolExamples.PushHappens | scripts/aggregate_ingest.sh:41-168 | For every hash function, a run of five steps that publishes a branch, sweeps it and pushes the pool, which is then the tree of the job. |
| PoolExamples.ProgressApplies | scripts/aggregate_ingest.sh:53-168 | The push of that run meets every hypothesis of the progress theorem, and its condition. |
| PoolMerge.PushedSweepIsAbsorbed | scripts/aggregate_ingest.sh:74-168 | After a push, re-running that sweep at any later time of the run leaves the pool as it is. |
| BrainPaths.BranchRoundTrip | scripts/brain_paths.sh:68-108 | Parsing a generated branch name returns its tuple and passes every guard. |
| BrainPaths.BranchParseInverse | scripts/brain_paths.sh:84-108 | Every accepted branch name is the generated name of the tuple it parses to. |
| BrainPaths.EvidenceRoundTrip | scripts/brain_paths.sh:161-213 | Incident and telemetry paths parse back to their tuple. |
| BrainPaths.EvidenceParseInverse | scripts/brain_paths.sh:187-213 | Every accepted incident or telemetry path is the generated one for its tuple. |
| BrainPaths.LegacyParseInverse | scripts/brain_paths.sh:125-142 | An accepted legacy name is determined by its three numbers and always means the original harness. |
| BrainPaths.BranchGrammarsDisjoint | scripts/brain_paths.sh:84-142 | No string is accepted by both branch parsers. |
| BrainPaths.PathGrammarsDisjoint | scripts/brain_paths.sh:153-185 | Corpus, incident and telemetry paths are pairwise different for all arguments. |
| BrainPaths.ThreeLevelsNeverNest | scripts/brain_paths.sh:153-185 | No generated path is a directory of another, so one tree can hold any set of them. |
| BrainPaths.UnitPathShape | scripts/brain_paths.sh:153-158 | A corpus unit path has three levels and its last component is the unit name. |
| BrainPaths.EvidencePathShape | scripts/brain_paths.sh:161-185 | Incident and telemetry paths have exactly three levels. |
| PathTexts.UintIsDecimal | scripts/brain_paths.sh:71-73 | The canonical numbers are exactly the decimal texts of the naturals. |
| PathTexts.UnitNameIsHex | scripts/brain_paths.sh:153-156 | Unit names are exactly forty characters of `0123456789abcdef`. |
| PathTexts.BranchText | scripts/brain_paths.sh:68-80 | The branch name as literal text. |
| PathTexts.IncidentText | scripts/brain_paths.sh:161-170 | The incident path as literal text. |
| PathTexts.TelemetryText | scripts/brain_paths.sh:176-185 | The telemetry path as literal text. |
| PathTexts.LegacyRoundTrip | scripts/brain_paths.sh:125-142 | For all canonical numbers r, a, k the name ingest/run-r/attempt-a/shard-k is refused by the canonical parser and read by the legacy one as that tuple with harness cmp_ecdsa_online. |
| PathTexts.LegacyAcceptedIff | scripts/brain_paths.sh:125-142 | And the legacy parser reads no other name. |
| Inventory.AdmitStep | scripts/materialize_window.py:208-232 | One early-rejecting step accepts an entry exactly when the list extended by it is admissible, and then updates the counters to its totals. |
| Inventory.RejectionIsFinal | scripts/materialize_window.py:208-240 | An early rejection is never premature: no continuation of the listing would have been admissible. |
| Inventory.ScanDirectory | scripts/materialize_window.py:206-240 | The loop over one directory continues the totals and candidates of what was seen, or no continuation is admissible. |
| Inventory.Scan | scripts/materialize_window.py:193-249 | The scan accepts exactly when all directories are readable, all entries well formed and the final totals within every cap; it returns those totals and the candidates of the selected bucket, or the code of the place where it stops. |
| Inventory.TotalsPermutation | scripts/materialize_window.py:219-228 | Totals, bucket counters and admissibility do not depend on the order of entries. |
| Inventory.ScanOrderIrrelevant | scripts/materialize_window.py:193-249 | Any reordering of entries, also across directories, leaves acceptance and counters unchanged. |
| Inventory.BucketsSumToTotals | scripts/materialize_window.py:219-228 | Bucket file and byte counters add up to the totals. |
| BucketLaws.AcceptsIff | scripts/materialize_window.py:193-249 | The scan accepts exactly complete directories of regular files with forty hexadecimal digits as names and at most 1 MiB, at most a million of them and 512 MiB, and for every beginning at most a hundred thousand and 128 MiB; every bound is itself allowed. |
| BucketLaws.CountersByBeginning | scripts/materialize_window.py:226-228 | There is a counter for each pair of first characters that occurs, and it holds the number and the total size of the entries that begin so. |
| BucketLaws.PickedShareTheBeginning | scripts/materialize_window.py:226-235 | Every unit that a plan picks begins with the two characters that the plan names. |
| BucketLaws.WindowsAreLeast | scripts/materialize_window.py:395-395 | The windows of the bucket of a unit are the least number w for which w times the room left by the common set holds all private units that share its first two characters. |
| BucketLaws.PickedIffRank | scripts/materialize_window.py:382-403 | A private unit is picked exactly by the ordinals whose remainder is the rank of its first two characters among those that occur and whose visit comes round to the window of its rank in its bucket. |
| BucketLaws.PlanMembers | scripts/materialize_window.py:376-403 | The other members of a plan: its prefix is the one whose rank is the remainder, its visit the quotient, its window the visit modulo the windows; both lists are sorted. |
| BucketLaws.PlanWindowCount | scripts/materialize_window.py:395-395 | The plan reports the least number of windows that hold the scheduled bucket. |
| BucketLaws.PlaceIsRank | scripts/materialize_window.py:394-399 | The place of a name in a sorted listing is the number of names before it. |
| BucketLaws.LeqIsLexicographic | scripts/materialize_window.py:394-394 | Names are sorted by the first character that differs, a proper prefix first. |
| ScanReasons.AdmitReason | scripts/materialize_window.py:208-232 | The code of a refusal: the entry's own flaw if it has one, in the order name, stat, kind, size, and otherwise the first cap that it breaks, total files, total bytes, files and bytes that begin alike. |
| ScanReasons.StopsUnique | scripts/materialize_window.py:203-240 | A scan that stops does so at one directory and for one code. |
| ScanReasons.CommonReason | scripts/materialize_window.py:164-177 | The common directory asks the same of an entry in the same order, and then its hash. |
| ScanReasons.ConfirmedIff | scripts/materialize_window.py:266-276 | A candidate read again is confirmed exactly if it is a regular file that hashes to its name and has its scanned size. |
| Windows.WindowCountCovers | scripts/materialize_window.py:395-395 | The rounded quotient is the least number of windows that hold the bucket. |
| Windows.SelectedWhen | scripts/materialize_window.py:382-399 | A private unit is selected exactly by the ordinals in one residue class modulo prefixes times windows of its bucket. |
| Windows.ExactCoverage | scripts/materialize_window.py:376-403 | Any P*W consecutive ordinals select each private unit of a bucket exactly once. |
| Windows.WavesReach | scripts/materialize_window.py:382-399 | Consecutive waves that amount to the cycle of a unit select it, in a computed wave and shard. |
| Windows.EveryUnitReached | scripts/materialize_window.py:376-403 | If waves times shards is at least P times the largest window count, those waves reach every private unit. |
| Windows.SelectionShape | scripts/materialize_window.py:376-403 | Every selection is the whole common set plus distinct private units of the scheduled bucket, at most 24 in all, without repetition. |
| Windows.ValidateBucket | scripts/materialize_window.py:258-278 | Hashing accepts exactly when every physical candidate, as it is met after the rescan, is still a regular file of the scanned size whose content hashes to its name; otherwise it reports what is wrong with the first that is not. |
| Windows.ValidateSource | scripts/materialize_window.py:153-179 | The common source is accepted exactly when it lists within the cap and every entry is well formed and hashes to its name; the result is its set of names, or what is wrong with the first entry refused. |
| Windows.Materialize | scripts/materialize_window.py:358-403 | The decision succeeds exactly when arguments, destination, common source, both scans, the unchanged inventory and the bucket hashes are all right, and then selects the planned units; otherwise it reports the first check that fails. |
| SigningStore.SigningPersistency.StoreSigningData | harness/cmp_ecdsa_online/src/fixtures.cpp:331-339 | Refuses an existing transaction, otherwise inserts; no other record changes; the call is counted either way. |
| SigningStore.SigningPersistency.LoadSigningData | harness/cmp_ecdsa_online/src/fixtures.cpp:341-349 | Returns the record of the transaction or refuses. |
| SigningStore.SigningPersistency.UpdateSigningData | harness/cmp_ecdsa_online/src/fixtures.cpp:351-360 | Replaces an existing record or refuses; no other record changes. |
| SigningStore.SigningPersistency.DeleteTemporarySigningData | harness/cmp_ecdsa_online/src/fixtures.cpp:362-367 | Removes the record if present and never throws; no other record changes. |
| SigningStore.SigningPersistency.DigestForTxid | harness/cmp_ecdsa_online/src/fixtures.cpp:394-404 | Absence is told apart from every digest. |
| SigningStore.PerformLocal | harness/cmp_ecdsa_online/src/fixtures.cpp:331-367 | Any finite program of store calls on one transaction depends on and writes that transaction's record only. |
| SigningStore.StoreLaws | harness/cmp_ecdsa_online/src/fixtures.cpp:331-367 | What can be looked up after each operation: an insertion succeeds exactly on an absent transaction, an update and a load exactly on a present one, a deletion always; a refusal changes nothing. |
| DualSession.CeremonyMachine.Advance | harness/cmp_ecdsa_online/src/dual_session.cpp:111-210 | A step calls the service for each caller in order, stops at the first throw without advancing, and otherwise records the round's messages. |
| DualSession.RunSession | harness/cmp_ecdsa_online/src/dual_session.cpp:356-413 | The turn loop with its cap and inner break computes the specified run. |
| DualSession.TakeTurn | harness/cmp_ecdsa_online/src/dual_session.cpp:381-404 | One granted turn updates crossings, trace, isolation flag and both ceremonies as specified. |
| DualSteps.StepReads | harness/cmp_ecdsa_online/src/dual_session.cpp:136-210 | A granted turn depends on the calls of its own round, for its own transaction, with exactly the messages of the round before (none in round 1), and on no other call. |
| DualSteps.StepMeans | harness/cmp_ecdsa_online/src/dual_session.cpp:111-210 | The whole turn: rounds 1 to 4 call every signer in order and round 5 the first one only, each call on the world left by the one before, up to the first throw; if none threw the round is recorded with the answers, and otherwise the ceremony is over with that exception and round number and is unchanged besides. |
| DualSteps.TurnMeans | harness/cmp_ecdsa_online/src/dual_session.cpp:367-377 | Who gets the turn: the low bit of the next byte, or the other one if that is finished; without bytes A first, then B. |
| DualSteps.GrantMeans | harness/cmp_ecdsa_online/src/dual_session.cpp:387-404 | The granted ceremony takes its turn, the other is untouched, and the isolation flag falls exactly if the other one's records changed. |
| DualSteps.RunReaches | harness/cmp_ecdsa_online/src/dual_session.cpp:403-404 | The highest round reported is that of the ceremony that got further. |
| DualRuns.TurnIsUsable | harness/cmp_ecdsa_online/src/dual_session.cpp:368-379 | The inner break is unreachable: a turn is never granted to a finished ceremony while the other can go on. |
| DualRuns.EveryRunEndsAndCrosses | harness/cmp_ecdsa_online/src/dual_session.cpp:356-405 | For every schedule, service and world the loop ends with both ceremonies finished after 2 to 10 turns, crosses at least once, and gives the same result under any cap of at least 10. |
| DualRuns.CompleteRunsInterleave | harness/cmp_ecdsa_online/src/dual_session.cpp:400-410 | When both complete there were exactly ten turns, five each, and 5 to 9 advances past the first crossing. |
| DualRuns.CapIsIrrelevant | harness/cmp_ecdsa_online/src/dual_session.cpp:359-363 | Raising the step cap above the rounds left changes nothing. |
| DualRuns.TraceReplays | harness/cmp_ecdsa_online/src/dual_session.cpp:363-405 | Feeding the recorded trace back as the schedule reproduces the same trace and the same final state. |
| DualIsolation.StepLocal | harness/cmp_ecdsa_online/src/dual_session.cpp:136-210 | With calls that reach the store through their own transaction only, a turn depends on and changes only that ceremony's records. |
| DualIsolation.Serialisable | harness/cmp_ecdsa_online/src/dual_session.cpp:356-413 | Then any two schedules give both ceremonies the same reports and the same final records, and the isolation flag is never lowered. |
| DualIsolation.EmptyScheduleIsSerial | harness/cmp_ecdsa_online/src/dual_session.cpp:372-377 | The empty schedule runs all of A before all of B, so every schedule agrees with the serial run. |
| DualIsolation.SharedStreamIsNotSerialisable | harness/cmp_ecdsa_online/src/dual_session.cpp:340-340 | Without that hypothesis it fails: one random stream shared by the ceremonies makes two schedules differ. |
| DualVerdict.SignerSet | harness/cmp_ecdsa_online/src/dual_session.cpp:330-338 | A signer set exists exactly when 1 <= t <= number of players; it is the first t of them. |
| DualVerdict.AppliedIff | harness/cmp_ecdsa_online/src/dual_session.cpp:381-404 | A run counts as applied exactly when the ceremony that started second did a round or the first did one after its first block of turns; a complete run always is. |
| DualVerdict.VerdictReports | harness/cmp_ecdsa_online/src/fuzzer_dual_session.cpp:170-195 | The ladder itself, which the entry point reaches when there is no harness fault: for an applied run the verdict is bad exactly when there is a finding, an oracle is named exactly then, and the clean verdicts split on whether both completed. |
| DualVerdict.SignatureFindingsAreReported | harness/cmp_ecdsa_online/src/fuzzer_dual_session.cpp:144-195 | Past the door, a finding of the signature oracles aborts the process exactly when both ceremonies left signatures and the file system let the record be published; a missing signature makes it a harness fault. |
| DualVerdict.FindingReportedIff | harness/cmp_ecdsa_online/src/fuzzer_dual_session.cpp:144-195 | A finding moves a bad-verdict counter exactly when the input passes the door, the run is no harness fault, it interleaved (read off its rounds and trace) and the process holds a job index; it aborts exactly when, besides, the document was published. |
| DualVerdict.IsolationFindingCanBeDropped | harness/cmp_ecdsa_online/src/fuzzer_dual_session.cpp:168-195 | A concrete run that breaks isolation and neither counts as bad nor aborts, because neither ceremony got through a round. |
| DualVerdict.FaultHidesFinding | harness/cmp_ecdsa_online/src/fuzzer_dual_session.cpp:161-162 | A concrete run that breaks isolation and interleaved, and of which nothing is recorded, because both ceremonies end in a harness fault. |
| DualVerdict.CellOfRun | harness/cmp_ecdsa_online/src/fuzzer_dual_session.cpp:65-72 | The schedule cell of every run is a known cell and never the sequential one. |
| VerdictLaws.CellIff | harness/cmp_ecdsa_online/src/fuzzer_dual_session.cpp:65-72 | The cell read off the turns: alternating exactly if at least half as many turns changed hands as were granted, blocked otherwise. |
| VerdictLaws.SignatureFlags | harness/cmp_ecdsa_online/src/dual_session.cpp:415-444 | The signature oracles in terms of the run: each speaks only when both ceremonies completed and both left a signature. |
| VerdictLaws.StateFlags | harness/cmp_ecdsa_online/src/dual_session.cpp:407-472 | The state oracles: rollback fails when a completed ceremony left its record, and the harness is at fault when a ceremony died or both completed without a signature each. |
| VerdictLaws.VerdictIff | harness/cmp_ecdsa_online/src/fuzzer_dual_session.cpp:170-180 | A signature that verifies in the other session outranks a broken state, which outranks an invalid signature: exactly when the verdict is which of the two bad ones. |
| VerdictLaws.SignalIff | harness/cmp_ecdsa_online/src/fuzzer_dual_session.cpp:187-195 | The process aborts with the name of the first finding in the source's order. |
| VerdictLaws.InputIsCounted | harness/cmp_ecdsa_online/src/fuzzer_dual_session.cpp:136-183 | An input that is played to the end moves exactly the counters of its cell and of its verdict, applied or not applied by whether its run interleaved. |
| VerdictLaws.OtherInputs | harness/cmp_ecdsa_online/src/fuzzer_dual_session.cpp:144-162 | An empty or overlong input is counted at the door; without a job index or after a harness fault nothing moves. |
| VerdictLaws.AbortIff | harness/cmp_ecdsa_online/src/fuzzer_dual_session.cpp:182-195 | The process aborts with a given oracle exactly when the finding is reportable, the record is claimed and published, and that oracle is the one signalled. |
| VerdictLaws.FirstBlockIs | harness/cmp_ecdsa_online/src/dual_session.cpp:381-384 | The first block of turns ends at the first turn that changes hands. |
| DualVerdict.RecordedCase | harness/cmp_ecdsa_online/src/fuzzer_dual_session.cpp:170-183 | What the entry point records is never refused, keeps the equations, and moves a bad-verdict counter exactly when the process aborts. |
| DualVerdict.TestOneInput | harness/cmp_ecdsa_online/src/fuzzer_dual_session.cpp:136-197 | The entry point: door, run, harness fault, verdict, recording with its claim and publication, abort. |
| DualVerdict.CampaignCounts | harness/cmp_ecdsa_online/src/fuzzer_dual_session.cpp:136-197 | Over every sequence of inputs the counters close; unless the file system ends it, each recorded input is counted once and the bad verdicts count exactly the finding that ended the process; no earlier input was reportable, and a harness fault ends it at the first input that has one. |
| Telemetry.Recorder.RecordDoorReject | harness/cmp_ecdsa_online/src/telemetry_v2.cpp:233-244 | Counts a rejected input once the process holds an index, and reports whether the document was published. |
| Telemetry.Recorder.RecordCase | harness/cmp_ecdsa_online/src/telemetry_v2.cpp:246-266 | Counts a case in the source's order, behind the claim and in front of the publication, so that an unknown verdict is refused after three counters moved. |
| Telemetry.FreshCloses | harness/cmp_ecdsa_online/src/telemetry_v2.cpp:223-229 | The initial counters satisfy all four equations. |
| Telemetry.RecordClosesIff | harness/cmp_ecdsa_online/src/telemetry_v2.cpp:246-266 | A call keeps the four equations closed exactly when it is not an applied known cell with an unknown verdict; that call reports failure. |
| Telemetry.UnknownVerdictOpensTheEquations | harness/cmp_ecdsa_online/src/telemetry_v2.cpp:254-259 | A concrete refused call after which the equations are open. |
| RecordLaws.RecordedCounts | harness/cmp_ecdsa_online/src/telemetry_v2.cpp:233-266 | After any sequence of successful records from the start, each counter is the number of the events that it is named after, per cell and per verdict. |
| RecordLaws.RecordMoves | harness/cmp_ecdsa_online/src/telemetry_v2.cpp:233-266 | One record moves each counter by what the event counts for, and no other. |
| RecordLaws.RefusedIff | harness/cmp_ecdsa_online/src/telemetry_v2.cpp:246-260 | A record is refused exactly on an unknown cell, or on an applied case with an unknown verdict. |
| ClaimProtocol.StepKeepsInv | harness/cmp_ecdsa_online/src/telemetry_v2.cpp:111-139 | Every step of every process (claim attempt, record, publish, crash) keeps the invariant. |
| ClaimProtocol.ClaimSafety | harness/cmp_ecdsa_online/src/telemetry_v2.cpp:111-139 | In every interleaving the claimed indices are exactly 0..k-1, no process holds two, and every document lies at its own index, was written by its owner and closes the equations. |
| ClaimProtocol.DocumentsKeepTheirWriter | harness/cmp_ecdsa_online/src/telemetry_v2.cpp:268-300 | A document is replaced only by the same process, never by an earlier count of executions, and by a strictly later one when a record replaces it. |
| ClaimProtocol.RecordLeavesDocument | harness/cmp_ecdsa_online/src/telemetry_v2.cpp:233-300 | A successful record, once renamed into place, leaves the process's own document with the counters after the event; a refused one, or one not renamed, leaves all documents as they were. |
| ClaimProtocol.ExitLeavesDocument | harness/cmp_ecdsa_online/src/fuzzer_dual_session.cpp:74-77 | The publication at exit leaves the final counters in the process's own document and nothing else changes. |
| ClaimProtocol.ClaimIff | harness/cmp_ecdsa_online/src/telemetry_v2.cpp:119-138 | A claim takes the index it tries exactly if it is below 100000 and nobody has it; otherwise the next one is tried or the process gives up. |
| Overlap.MaxOverlap | scripts/validate_rt4.py:321-337 | The sorted sweep returns the maximum over all instants of the number of half-open intervals containing it, and neither rejection is reachable for parsed documents. |
| Overlap.ActiveIsDifference | scripts/validate_rt4.py:324-331 | The jobs running at an instant are the starts minus the ends up to it. |
| Overlap.InstantSeen | scripts/validate_rt4.py:328-334 | Every instant is dominated by the counter after some prefix of the sorted events. |
| Reports.ReportAcceptedIff | scripts/validate_rt4.py:199-291 | A JSON value is accepted, as a given report, exactly when it is the closed-schema value of that report, every member is in range, index and interval are right and the counters close all four equations; no checked addition can overflow in one that is. |
| ReportReasons.DocumentReason | scripts/validate_rt4.py:199-273 | The code of a refused document names its first wrong part: shape, schema, identity, build, process, counters, equations. |
| ReportReasons.ProcessReason | scripts/validate_rt4.py:223-240 | Within the process part: shape, index type, index, parallelism, times, interval, each code exactly when all checks before it pass and its own fails. |
| ReportReasons.CountersReason | scripts/validate_rt4.py:242-263 | Within the counters: shape, the three numbers, then the four maps in their order. |
| ReportReasons.EquationReason | scripts/validate_rt4.py:265-273 | Which equation is blamed: executions, selections, the first cell that is off, verdicts; an overflow only where a sum exceeds 2^63-1. |
| Validator.AddMap | scripts/validate_rt4.py:308-317 | The checked map addition fails exactly when some sum exceeds 2^63-1, and otherwise is the pointwise sum. |
| Validator.Aggregate | scripts/validate_rt4.py:294-318 | The aggregation fails exactly when a final total exceeds 2^63-1, and otherwise returns the exact totals. |
| Validator.Validate | scripts/validate_rt4.py:340-375 | The gate is ready exactly when claims match files, every file holds a report that is accepted, the reports agree and reach every cell, the totals fit, and at no instant do more jobs run than the declared parallelism; it tells the exact maximum and totals, and otherwise the first test that fails. |
| Validator.AcceptedTotalsClose | scripts/validate_rt4.py:365-375 | The totals of an open gate close the four equations. |
| GateLaws.ReachedIff | scripts/validate_rt4.py:370-374 | The last test on the single reports: every cell was selected in some report and applied in some report. |
| GateLaws.UnappliedCellBlocks | scripts/validate_rt4.py:373-374 | A cell that no report applied blocks the gate, however often it was selected. |
| GateLaws.VacuousCampaignBlocked | scripts/validate_rt4.py:373-374 | A concrete document that is well formed and closes all equations, in which every cell was selected and none applied, and on which the gate stays shut. |
| GateReasons.VacuousReason | scripts/validate_rt4.py:373-374 | And the reason that the gate gives for it is VACUOUS_CELL. |
| GateReasons.ReasonIff | scripts/validate_rt4.py:340-377 | There is a reason exactly when the gate does not open. |
| GateReasons.ReasonUnique | scripts/validate_rt4.py:340-377 | And there is only one: the first test that fails, over the files, the documents in index order, and all reports together. |
| GateReasons.ListedInOrder | scripts/validate_rt4.py:352-352 | The documents are read in the order of their indices. |
| DualGate.DualCampaignsNeverPass | scripts/validate_rt4.py:370-374 | No set of documents written by dual-session campaigns, whatever their services do, opens the gate: the sequential cell is required and can never be reached. |
| DualGate.MissedCellBlocks | scripts/validate_rt4.py:370-374 | A cell that no document selects blocks the gate. |
| DualGate.ThoroughJobPasses | scripts/validate_rt4.py:340-375 | The gate is not vacuous: one job that reached every cell opens it. |
| EvidenceLaws.CheckAcceptsIff | scripts/telemetry_evidence.py:319-373 | Checking returns a document exactly for the canonical bytes of that well-formed document. |
| EvidenceLaws.CanonicalIsAccepted | scripts/telemetry_evidence.py:319-373 | The canonical bytes of well-formed evidence are accepted. |
| EvidenceLaws.AcceptedIsCanonical | scripts/telemetry_evidence.py:319-373 | Whatever is accepted is well formed and byte-for-byte canonical. |
| EvidenceLaws.SanitisedIsAccepted | scripts/telemetry_evidence.py:240-272 | The serialised output of the sanitiser is accepted with the same identifiers and returns the same document. |
| Totalling.TotalCloses | scripts/validate_rt4.py:294-318 | Totals of counters that close the equations close them too. |
| EvidenceLaws.TotalsClose | scripts/telemetry_evidence.py:248-272 | The same for the totals of the sanitised jobs. |
| EvidenceLaws.AcceptedTotals | scripts/telemetry_evidence.py:319-373 | The totals of an accepted document are the exact sums of its jobs and close the equations. |
| EvidenceLaws.EmittedIff | scripts/telemetry_evidence.py:319-327 | An accepted document is one that the sanitiser could have emitted exactly when its jobs share one build and each has a positive parallelism. |
| EvidenceLaws.DocumentIff | scripts/telemetry_evidence.py:132-205 | A raw document is accepted, as a given job, exactly if it is the closed-schema document of that job with two times in order below 2^60 whose difference is the job's duration, its index is the expected one, and its parallelism is 1 to 8. |
| EvidenceLaws.SanitizeIff | scripts/telemetry_evidence.py:240-272 | Exactly which documents the sanitiser turns into which evidence. |
| EvidenceLaws.VocabularyIff | scripts/telemetry_evidence.py:69-69 | Words of the vocabulary, in character codes: up to 64 characters, the first a letter or digit. |
| EvidenceLaws.CheckAcceptsDisagreeingBuilds | scripts/telemetry_evidence.py:319-327 | A concrete document with two builds that the check accepts and no sanitiser emits. |
| EvidenceLaws.CheckAcceptsZeroParallelism | scripts/telemetry_evidence.py:303-306 | A concrete document of parallelism zero that the check accepts and no sanitiser emits. |
| Snapshot.DecodeEncoded | harness/cmp_ecdsa_online/src/snapshot.cpp:386-453 | Decoding the words of an encoded snapshot returns them when they fit their fields. |
| Snapshot.EncodeDecoded | harness/cmp_ecdsa_online/src/snapshot.cpp:414-453 | Re-encoding the words of any accepted file returns its bytes. |
| Snapshot.RoundTripIff | harness/cmp_ecdsa_online/src/snapshot.cpp:386-453 | Reading what was written returns the snapshot exactly when every blob and the player count is below 2^32. |
| Snapshot.RewriteIff | harness/cmp_ecdsa_online/src/snapshot.cpp:434-435 | Rewriting what was read returns the same file exactly when its two threshold words fit in a byte. |
| Snapshot.AcceptedIsPrefixFree | harness/cmp_ecdsa_online/src/snapshot.cpp:437-451 | No accepted file can be extended, or cut short, and still be accepted. |
| Snapshot.NarrowingLosesTheThreshold | harness/cmp_ecdsa_online/src/snapshot.cpp:434-435 | A concrete file whose threshold word 256 is read as 0, so that rewriting it gives another file. |
| SnapshotLayout.FileLayout | harness/cmp_ecdsa_online/src/snapshot.cpp:386-405 | The file byte by byte: magic, format 1, algorithm, key, seed, threshold words, player count and players, with big-endian words and length-prefixed blobs. |
| SnapshotLayout.PlayerIsBytes | harness/cmp_ecdsa_online/src/snapshot.cpp:397-405 | The bytes of a player: eight for its id, then its six blobs in order. |
| SnapshotLayout.WordIsBigEndian | harness/cmp_ecdsa_online/src/snapshot.cpp:31-38 | The k-th byte of a word is its k-th most significant one. |
| SnapshotIO.Writer.PutWord | harness/cmp_ecdsa_online/src/snapshot.cpp:31-38 | Appends the big-endian bytes of the word. |
| SnapshotIO.WriteSnapshot | harness/cmp_ecdsa_online/src/snapshot.cpp:386-405 | The writer's loops produce the encoding. |
| SnapshotIO.Reader.Blob | harness/cmp_ecdsa_online/src/snapshot.cpp:65-72 | A blob is read exactly when its length word and its bytes are there; the flag is sticky. |
| SnapshotIO.ReadSnapshot | harness/cmp_ecdsa_online/src/snapshot.cpp:414-453 | The reader with its sticky flag and loops computes the decoding, including both truncation tests and the trailing-bytes test. |
| DetRand.Generator.Refill | harness/cmp_ecdsa_online/src/det_rand.cpp:27-38 | A refill makes the next block of the stream current. |
| DetRand.Generator.DetBytes | harness/cmp_ecdsa_online/src/det_rand.cpp:40-59 | Refuses a negative size and an unseeded state; otherwise returns the next bytes of the ideal stream. |
| DetRand.Generator.ReseedWithLabel | harness/cmp_ecdsa_online/src/det_rand.cpp:100-113 | Restarts the stream at the key of the seed and label. |
| DetRand.Generator.Accounting | harness/cmp_ecdsa_online/src/det_rand.cpp:27-59 | 64 * counter = drawn + unread bytes of the current block, below 2^64 bytes. |
| DetRand.DrawAll | harness/cmp_ecdsa_online/src/det_rand.cpp:40-59 | Any sequence of draws concatenates to a slice of the stream. |
| DetRand.SplitsAgree | harness/cmp_ecdsa_online/src/det_rand.cpp:40-113 | Two ways of splitting one amount of bytes into draws return the same bytes. |
| DetRand.SliceSplit | harness/cmp_ecdsa_online/src/det_rand.cpp:47-57 | Adjacent slices of the stream concatenate. |
| DetRand.MaterialInjective | harness/cmp_ecdsa_online/src/det_rand.cpp:100-113 | Different 64-bit seeds or labels feed different material to the hash. |
| DetRand.MaterialIs | harness/cmp_ecdsa_online/src/det_rand.cpp:100-108 | The key material: the k-th of eight bytes has weight 256^k in the seed, and the label follows. |
| DetRand.BlockInput | harness/cmp_ecdsa_online/src/det_rand.cpp:27-35 | A block is the hash of the key followed by the eight bytes of the counter, least significant first. |
| Mutators.FlipIn | harness/cmp_ecdsa_online/src/mutators.cpp:13-19 | In place, one bit of the indexed byte; refuses the empty buffer. |
| Mutators.ZeroIn | harness/cmp_ecdsa_online/src/mutators.cpp:21-27 | In place, all zeros; reports success on any non-empty buffer. |
| Mutators.MutateIn | harness/cmp_ecdsa_online/src/mutators.cpp:29-66 | One buffer under any operation, with its refusals; truncation only for variable-size fields. |
| Mutators.FlipLaws | harness/cmp_ecdsa_online/src/mutators.cpp:17-17 | A bit flip is its own inverse and changes exactly one byte. |
| Mutators.MutateChangesIff | harness/cmp_ecdsa_online/src/mutators.cpp:21-40 | An applied operation changes the buffer unless it zeroed zeros; truncation leaves a strict prefix; fixed fields keep their size. |
| MutatorLaws.ToggledBit | harness/cmp_ecdsa_online/src/mutators.cpp:17-17 | The bit flipped is the one whose weight is 2 to the power of the bit number modulo 8, and every other bit stays. |
| MutatorLaws.MutateMeans | harness/cmp_ecdsa_online/src/mutators.cpp:29-66 | Each operation on a buffer: what it leaves in every byte, its length, and when it is refused. |
| MutatorLaws.AppliedIff | harness/cmp_ecdsa_online/src/mutators.cpp:119-208 | A mutation is applied exactly when it is meant for the round, names a field of the round, its one buffer exists and is not empty, and the operation is one that the field takes. |
| MutatorLaws.FieldsOfTheirRound | harness/cmp_ecdsa_online/src/mutators.cpp:119-208 | A field is read in the messages of its own round only. |
| MutatorLaws.OnlyTheExtraKeyAdds | harness/cmp_ecdsa_online/src/mutators.cpp:210-261 | In round 4 only the extra key on the scalar field adds a sender; the operation is refused on every other field and in every other round. |
| Mutators.Wire.ApplyRound | harness/cmp_ecdsa_online/src/mutators.cpp:119-208 | The per-round mutation of the message map; a false result leaves it as it was. |
| Mutators.WriteFrame | harness/cmp_ecdsa_online/src/mutators.cpp:128-208 | A write replaces the one buffer that its field names and no other buffer of the block, among them the commitments and proofs that no field names. |
| Mutators.ApplyFrame | harness/cmp_ecdsa_online/src/mutators.cpp:119-261 | For every mutation, a false result changes nothing, and a true one changes only the attacker's named buffer at one block, to the mutated value: every other buffer of every message, whether a field names it or not, stays. |
| Mutators.SlotsDetermine | harness/cmp_ecdsa_online/src/mutators.cpp:119-261 | The addresses of that statement leave nothing out: with the senders and block counts they determine all messages. |
| Mutators.AppliedChangesIff | harness/cmp_ecdsa_online/include/opus/mutators.h:73-75 | The promise of the header holds exactly when the operation did not zero a buffer of zeros. |
| Mutators.ZeroingZerosIsReported | harness/cmp_ecdsa_online/include/opus/mutators.h:73-75 | A concrete mutation of a 32-byte zero scalar that is reported as applied and changes nothing. |
| Mutators.SetDifference | harness/cmp_ecdsa_online/src/mutators.cpp:231-234 | The merging loop computes the sorted difference. |
| Mutators.DifferenceCounts | harness/cmp_ecdsa_online/src/mutators.cpp:231-234 | Each id occurs in the difference as often as it exceeds the other list. |
| Mutators.ChooseSpec | harness/cmp_ecdsa_online/src/mutators.cpp:226-237 | The chosen id is the least that occurs more often among players than signers, and none is chosen exactly when there is none. |
| Mutators.DistinctPlayersChoose | harness/cmp_ecdsa_online/src/mutators.cpp:226-237 | With distinct player ids it is the least non-signer, and none exactly when all players sign. |
| Mutators.ChosenIsNonSignerIff | harness/cmp_ecdsa_online/src/mutators.cpp:226-237 | The id that is selected, before the map is looked at, is a non-signer exactly when every over-represented signer has a smaller non-signer. |
| Mutators.ExtraKeyNamesSignerIff | harness/cmp_ecdsa_online/include/opus/mutators.h:87-96 | The added entry is a signer's exactly when the least id listed more often as player than as signer is a signer without an entry in the map. |
| Mutators.ExtraKeyNeverASigner | harness/cmp_ecdsa_online/src/mutators.cpp:222-255 | When every signer has an entry, as in the driver, what is added is never a signer's, whatever the list of players. |
| Mutators.RepeatedPlayerAddsSigner | harness/cmp_ecdsa_online/include/opus/mutators.h:87-96 | A concrete call, with a player listed twice and no entry for the signer, that adds one for the signer. |
| Mutators.ExtraKeyFrame | harness/cmp_ecdsa_online/src/mutators.cpp:222-255 | For every list of players, the extra key applies exactly when some id is left over and the least one is not in the map; it adds one zero scalar there and leaves every entry intact. |
| Mutators.DistinctPlayersExtraKey | harness/cmp_ecdsa_online/src/mutators.cpp:222-255 | With distinct player ids it applies exactly when the least non-signer is not in the map, and that is the id added. |
| Mutators.Wire.ApplyFourth | harness/cmp_ecdsa_online/src/mutators.cpp:210-261 | Round 4 with the extra key: sort, difference, membership and collision tests. |

## Left out

- The signing service, curve arithmetic, Paillier and ring-Pedersen calls, signature verification, SHA-1, SHA-512 and GPG are parameters; snapshot generation, verification and installation are not modelled.
- JSON text: the serialiser and the parser are a pair of functions of which only "parsing a dump gives the value back" is used; member names are an enumeration plus free labels.
- `git check-ref-format` is taken to accept generated names; a blob's object id is identified with its content; fetches are shallow, so a remote-tracking name never moves from one commit to another.
- Deleting or force-pushing references is not a step of the pool protocol; a branch push onto an existing branch fails. An aggregator whose base is stale may stop on a branch built on a newer pool; its push could not have succeeded.
- PoolPublish.PublishIngest: the tests that the input paths are real paths without links are not modelled.
- Symbolic links in the working trees of both scripts.
- Windows.Materialize: covers the decision; staging, copying, manifests and all-or-nothing writing of the window are not modelled, nor the identity of inodes while a file is read.
- DualIsolation.Serialisable: requires that service calls use the store only through their own transaction; the library's code is not visible, and the lemma on a shared stream shows why the requirement is needed.
- The digest of a signing record is used only as a function of the record; it is not injective, since it omits proof contents.
- DualVerdict.TestOneInput: the start-up control run, the derivation of the seed and the process exit codes are not modelled; the file system's answers are a parameter.
- DualVerdict.VerdictReports: states the ladder alone; what the entry point does with it, with faults and the file system, is stated by FindingReportedIff.
- Telemetry counters are unbounded, where the harness uses 64-bit words.
- Validator.Validate: starts from the listed file names and the JSON value in each file; links, file types, sizes and changes while reading are not modelled, and the codes for a file that cannot be read as JSON are one code.
- Directory reading for telemetry (sizes, links, inode checks), clocks and elapsed times.
- The single-session driver and its verdict ladder, packaging, images, shard running, wave planning, public summaries, failure reports, quarantine and workflow policy: plumbing or finite tables that would add only easy members.
- Names of fields and operations for log lines (`describe`) in the mutators.
