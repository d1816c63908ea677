# Verification of the class cache

A Dafny model of the distributed class-data-sharing cache, with machine-checked proofs. It covers the three
places where the system is more than the sum of its functions:

- **The primer cluster.** Any number of primers compute one archive key and share one directory entry. Each looks
  for a local archive, then pulls from a zone-ordered list of peers, then competes for a lease, builds, releases,
  registers and publishes, or waits for somebody else. `Cluster` is a labelled transition system whose steps are
  single directory commands, file operations, clock ticks and failures of single primers, interleaved in any
  order. `Lease`, `Lineage`, `Exclusion` and `Registration` prove what every run keeps; `Runs` gives particular runs:
  the protocol doing its job, and each fault breaking what it breaks; `Tolerance` puts the two together and says
  exactly which faults and which starts each safety property survives. `Directory`, `Peer` and `Orchestrator` are the
  same code in imperative form, one process against a store and a disk, and `Solo` finds every successful outcome of
  that code among the runs of `Cluster`, with no fault that its environment did not have, so that lineage carries over.
- **Operator, webhook and workload.** `Workload` is the in-place editor of pod templates and `WorkloadLaws` its
  algebra. `MergePatch` is section 2 of RFC 7396 and the one patch that primers send. `Operator` is a reconcile
  and the admission handler in imperative form; `Platform` interleaves primers, stale reconciles, patches in flight,
  users and admissions, and proves what connects them; `EndToEnd` runs it from a fresh installation to a patched
  workload.
- **Four smaller components.** The content-addressed key (`ArchiveKey`), the span exporter's escaping
  (`JsonEscape`), the tracer's thread-local stacks (`Spans`), and the savings figures: two streaming scanners of
  `/proc/<pid>/smaps` (`Smaps`, `SmapsLaws`), the command-line report (`Stats`) and the desktop sample (`Desktop`).

`dafny verify dfyconfig.toml` checks everything.

## How the model stands for the system

- One directory command or Lua script is one atomic step. In `Cluster` a lock command or a registration is a
  message that stays in `sent`: the store may execute it at any later time, any number of times, or never. This
  covers loss, delay, retries and requests that outlive their process. The pipeline of Register is not one
  transaction: a broken connection may leave a prefix of it executed.
- A peer may serve any bytes. A transfer is a whole body or one that breaks off; closing, re-reading or removing the
  file may fail.
- A build is one step that yields any file, or none, and reports success or failure independently of that.
- SHA-256 is a function parameter; the lineage theorems need of it only that no digest is the empty string.
- The primers of one key have different endpoints and different archive directories.
- A stored lock counts as gone from its expiry on.
- The store keeps what it holds (no loss of Valkey data), and a kill in the middle of a build leaves the file as the
  build step found it. A kill in the middle of a pull is in the model, as a fault.
- The starts and runs that the cluster theorems speak of exist: `Runs.OneBuildsTheOtherPulls` is a run without any
  fault from a start of that kind.
- Zones only reorder the peer list; `Cluster` lets them be anything at every listing.
- In `Platform` a user may submit any template, except one that carries a container under the name
  `cc-wait-archive` that was in no earlier template.
- In `Smaps` and `ArchiveKey` a character stands for one byte; the text of smaps is ASCII.

## What turned out false, and exactly when it holds

- *Digests in the directory come from built files.* Not after a failed read of the stored digest (the code ignores
  the error and pulls unchecked, `orchestrator.go:146`), not after a kill in mid-pull (a start only tests the size
  of the local file, `orchestrator.go:83`), not when a rejected body cannot be removed (`peer.go:115` ignores
  that). For any set of faults that may happen, the property holds of all runs from all ordinary starts if and only if
  none of these three is among them (`Tolerance.LineageToleratesExactlyStaleReleases`). It also depends on the start:
  it is lost if and only if there is an entry without a digest, as primers before v0.11 wrote it, and a primer
  without an archive that may pull through it (`Tolerance.LineageSurvivesExactlyUnexposedStarts`).
- *At most one primer builds under a live lease.* The lock carries an endpoint, not a process: a release that a dead
  process left in flight deletes the lease of its successor on the same endpoint. For any set of faults, exclusion
  holds of all runs from all starts if and only if this one is not among them
  (`Tolerance.ExclusionToleratesAllButStaleReleases`).
- *A failed Run leaves nothing registered.* A Run that read its archive back and then fails has put its name into the
  directory if and only if the pipeline was answered and the server cannot listen, or the pipeline broke off after
  the membership was executed; the digest of its archive is there already from the executed record on. In the first
  case the registration is remembered, in the second it is not; either
  way nobody removes it, since the process exits without the shutdown. `Orchestrator.Run` says exactly when it
  succeeds, what is remembered, and what the whole entry is afterwards.
- *A failed pass over the peers leaves no archive.* Exactly unless the last peer that sent a body left bytes that
  could not be removed (`Peer.FailedPullsLeaveNothingUsable`).
- *The last key wins.* A sequence of patches with one directory amounts to its last one if and only if they all have
  the same key, or the template did not come with an init container of our name, our image and the later key's script
  but other contents (`WorkloadLaws.LastKeyWins`; `TheEarlierKeyIsForgotten` for two patches).
- *A new ArchiveDir re-points the template.* Never: the volume and the mounts stay
  (`WorkloadLaws.TheDirectoryIsNotRepointed`).
- *The Go and the C scanner agree.* Per counter, exactly when nothing leaks into a `.jsa` block that no VmFlags line
  closed; the Go scanner does not take a foreign header for the end of a block (`SmapsLaws.ScannersAgreeExactly`).
- *TOTAL equals the sum of the rows.* The rows are guarded against Pss above Rss, TOTAL is not: equal without
  overflow exactly when no node shows more Pss than Rss (`Stats.TheTotalConservesSavings`).
- *Ending a span takes it off its stack.* Exactly when it is on top of the ending thread's stack; otherwise it stays
  for good (`Spans.OnlyAnEndOnTopRemoves`).
- *The key preimage determines its ingredients.* Always between ingredients whose JVM line and architecture have no
  '|'. Against arbitrary JVM lines, exactly when the profile has none either
  (`ArchiveKey.PreimageIsUniqueExactlyWithoutPipes`).

Where documentation and code disagree, the model follows the code: `docs/DESIGN.md` gives the lock a TTL of 600 s, the
code 60 s with renewals every third of it; it lets another node build after a dead builder's TTL, but a primer that
was refused the lock only polls and never asks again; and since the lock is released before Register
(`orchestrator.go:196` and `:103`) there is no claim that a key is built once.

## Model

| member | source | states |
|---|---|---|
| `Lease.StaleLockLivesExactlyToExpiry` | modules/primer/directory.go:129-168 | Once a holder stops, no acquire, renewal or release by others (nor an acquire of a restarted primer with its endpoint) extends, replaces or removes its lock before the expiry, and the next acquire succeeds if and only if the expiry has passed |
| `Lease.OthersAreInvisibleToTheHolder` | modules/primer/directory.go:134-168 | While one endpoint is the holder at every command, erasing everybody else's commands, late renewals and releases included, gives the same lock |
| `Lease.HeldSinceItsLastGrant` | modules/primer/directory.go:129-154 | In every trace a held lock expires one TTL after the last effective acquire or renewal of its holder, and nothing since has touched it |
| `Lease.LeaseNeverLapses` | modules/primer/orchestrator.go:161-193 | With a renewal every third of the TTL, delays below a sixth of it and no two consecutive renewals lost, provided no release under the holder's own endpoint lands meanwhile, a stale one included, the lease holds at every instant of a build of any length, and every competing acquire is refused |
| `Lease.TwoLostRenewalsLoseTheLease` | modules/primer/orchestrator.go:161-193 | The bound is tight: if the first two renewals are both lost, the lease is gone at the third tick |
| `Lease.EveryLeaseGoesBackToAnAcquire` | modules/primer/directory.go:129-168 | Behind every held lock is an acquire of its holder that found no lock or a lapsed one; since then the holder never changed and no command came after the expiry it met |
| `Lease.OnlyAnAcquireMakesALock` | modules/primer/directory.go:134-168 | Without an acquire a missing lock stays missing and a lapsed one is gone from the first command on, whatever renewals and releases arrive, and no holder changes |
| `Directory.ZoneOrderIsAStablePartition` | modules/primer/directory.go:102-127 | The list is a permutation of the peer set without the caller, same-zone endpoints first, order inside each class kept; TheListFollowsTheZoneMap reads this off the zone map |
| `Directory.TheListFollowsTheZoneMap` | modules/primer/directory.go:102-127 | An endpoint whose recorded zone is the caller's stands before every one with another zone or none; two that are both of the one kind stand in the order of the reply |
| `Directory.SameZoneFirstMeans` | modules/primer/directory.go:119-126 | The first of these, for any list, if and only if the list has its same-zone endpoints first |
| `Directory.ARegisteredZoneDecidesThePlace` | modules/primer/directory.go:46-127 | After a registration with a zone every later caller has the endpoint on its list, before all peers of other zones if the zone is its own, and behind all of its own zone if not |
| `Directory.StablePartitionIsUnique` | modules/primer/directory.go:118-126 | There is only one such list for a given reply |
| `Directory.PeerOrderIsAPeerList` | modules/primer/directory.go:102-127 | The caller gets every other member once, and its own zone first, in the sense of SameZoneFirstMeans, when the zones could be read |
| `Directory.EveryPeerListIsAnOrder` | modules/primer/directory.go:102-127 | Conversely every such list is what the caller gets for some order of the reply |
| `Directory.WithoutZonesTheListIsPlain` | modules/primer/directory.go:108-117 | Without a zone, or when zones cannot be read, the caller gets the plain filtered list |
| `Directory.PeerOrderMembers` | modules/primer/directory.go:87-127 | Whatever the zones, the list names exactly the other members |
| `Directory.OthersAreTheSetMinusSelf` | modules/primer/directory.go:88-100 | The filtered reply holds every other member once |
| `Directory.KeepOthers` | modules/primer/directory.go:93-98 | The filter over the reply's own backing array keeps all other endpoints in order; the rest of the array is untouched |
| `Directory.NamesAreDistinct` | modules/primer/directory.go:46-75 | Different archives never share a record, and no archive's record is another's zone map |
| `Directory.Store.TryAcquireBuildLock` | modules/primer/directory.go:129-132 | Taken, for the caller and one TTL, if and only if there is no lock or it has lapsed; lock and reply for delivered, lost and unanswered requests; no other archive changes |
| `Directory.Store.RenewBuildLock` | modules/primer/directory.go:134-154 | An answered reply is yes if and only if there is a lock, it is the caller's and its time is not over; only then is it moved, and a missing or lapsed lock is never brought back; a transport failure is the only error |
| `Directory.Store.ReleaseBuildLock` | modules/primer/directory.go:156-168 | Only the caller's own lock is deleted, or one that has lapsed; everything else stays |
| `Directory.Store.Register` | modules/primer/directory.go:46-65 | A prefix of record (five fields, merged into the others), member and zone is executed, all three on success; the lock and other archives keep theirs |
| `Directory.Store.Unregister` | modules/primer/directory.go:170-175 | The peer set loses exactly this endpoint; record, zones, lock and other archives stay |
| `Directory.Store.ArchiveSHA256` | modules/primer/directory.go:77-85 | The stored field, or an empty digest when it is missing, which is no error |
| `Directory.Store.ListPeers` | modules/primer/directory.go:87-100 | Some enumeration of the peer set, without the caller |
| `Directory.Store.ListPeersZoneAware` | modules/primer/directory.go:102-127 | Some enumeration of the peer set in the proved zone order, with the two plain-list paths; endpoints whose recorded zone is the caller's come before all others |
| `Peer.Disk.PullFromPeer` | modules/primer/peer.go:79-121 | Success if and only if the body came whole, was copied and closed, and has the expected digest if there is one; the file is then that body, and on failure the old file (nothing opened), no file, or a body that could not be removed |
| `Peer.FailedPullsLeaveNothingUsable` | modules/primer/peer.go:94-119 | After any list of failed attempts from no usable file there is a usable one if and only if the last body opened could not be removed |
| `Peer.BodiesAreNeverMixed` | modules/primer/peer.go:94-119 | The file is the old one, absent, or one attempt's body alone |
| `Orchestrator.FirstGood` | modules/primer/orchestrator.go:148-156 | The first acceptable transfer in list order |
| `Orchestrator.Orchestrator.PullLoop` | modules/primer/orchestrator.go:147-156 | Ends with the first acceptable peer's complete body and that peer's name, or, when there is none, with the file all failed attempts leave |
| `Orchestrator.Orchestrator.PullPass` | modules/primer/orchestrator.go:135-156 | Succeeds if and only if the list was read and another listed peer delivers a whole body, with the stored digest if one could be read; the file is the first such body in some order of the reply and has that digest, or is what all failures left |
| `Orchestrator.APassTakesTheFirstDelivery` | modules/primer/orchestrator.go:147-156 | A pass ends with the first whole body on the list that has the digest it read, or no other member delivers one |
| `Orchestrator.EveryPullHasTheStoredDigest` | modules/primer/orchestrator.go:144-156 | Whatever a primer reports to have pulled, directly or after waiting, is one other peer's whole body, and has the stored digest if that pass could read one |
| `Orchestrator.Orchestrator.Heartbeat` | modules/primer/orchestrator.go:170-190 | The loop stops when it hears that the lock is not its own any more, or has lapsed, and only then; the lock is then what the renewals that arrived made of it, never one that was not there before, and nothing else changed |
| `Orchestrator.ASteadyHeartbeatKeepsTheLock` | modules/primer/orchestrator.go:161-190 | If ticks come at least three to a TTL and no two in a row are lost, the builder has its lock after any number of them, for two thirds of the TTL at least, and hears no refusal |
| `Orchestrator.Orchestrator.AcquireRemoteOrBuild` | modules/primer/orchestrator.go:134-205 | Exactly when it pulls, builds, or pulls after waiting, by what the peers deliver, whether the lock is free or lapsed, and how the build ends; a pulled file has the stored digest if it could be read; the lock in every case: untouched by a pull, still taken when the reply to the acquire is lost, released after a successful and after a failed build |
| `Orchestrator.Orchestrator.WaitForPeer` | modules/primer/orchestrator.go:207-230 | Succeeds if and only if in some poll another peer delivered, and then with that body, which has the stored digest if that poll could read it |
| `Orchestrator.Orchestrator.RegisterArchive` | modules/primer/orchestrator.go:92-109 | Without a readable file nothing happens; otherwise the entry is what the executed part of the pipeline makes of it, with the digest of the file on disk, and only an answered pipeline counts as registered and is remembered |
| `Orchestrator.Orchestrator.Run` | modules/primer/orchestrator.go:62-132 | Exactly when it succeeds; what is remembered; the whole entry afterwards, on success and on every failure, with its digest, its members and its lock; exactly which failed runs leave their name behind; a pulled archive has the stored digest if its pass could read it; a usable local file is never touched |
| `Orchestrator.Orchestrator.GracefulShutdown` | modules/primer/orchestrator.go:43-56 | Takes exactly the remembered endpoint out of the peer set of the remembered archive, and changes nothing without a completed Run |
| `Lineage.StoredDigestsAreBorn` | modules/primer/orchestrator.go:82-103 | At every point of every clean run from an unexposed start the stored digest, those on their way to the store and all registered ones are digests of files built in the run or present at its start |
| `Lineage.EveryPullIsVerified` | modules/primer/orchestrator.go:135-150 | At every point of every clean run no transfer starts without an expected digest of a genuine file, and a non-empty peer set has a stored digest if it had one at the start |
| `Lineage.ServedFilesAreBorn` | modules/primer/orchestrator.go:92-131 | What a serving primer has on disk has a built file's digest |
| `Lineage.BornIsFoundOrBuilt` | modules/primer/orchestrator.go:192-192 | In any run, faults included, only initial files and build outputs ever count as genuine |
| `Tolerance.LineageToleratesExactlyStaleReleases` | modules/primer/orchestrator.go:82-156 | For every set of faults (given two endpoints and two contents with different digests): hash lineage holds of all runs from all ordinary starts if and only if unread digests, kills in mid-pull and unremovable bodies are not in the set |
| `Tolerance.LineageSurvivesExactlyUnexposedStarts` | modules/primer/orchestrator.go:144-150 | For every start (as soon as some content has a digest that is not accounted for): hash lineage holds of all clean runs from it if and only if no primer without an archive may pull through an entry without a digest |
| `Tolerance.ExclusionToleratesAllButStaleReleases` | modules/primer/directory.go:156-168 | For every set of faults: at most one lease holder in all runs from all starts if and only if stale releases are not in the set |
| `Registration.CompleteRegistrationsAreReal` | modules/primer/orchestrator.go:99-109 | In every run, when a primer takes its registration for complete, the store has executed its record before and its membership now, and it has a file with the digest it sent |
| `Solo.EveryOutcomeIsARun` | modules/primer/orchestrator.go:62-230 | For every successful outcome of Run the steps of that primer alone reach the same file, its digest and membership in the entry, and nothing else different; the run has an unread digest only if some read was not answered, an unremovable body only if some peer sent one, and no other fault |
| `Solo.RunRegistersGenuineArchives` | modules/primer/orchestrator.go:62-230 | So lineage holds of the code: from an ordinary start that is not exposed, with every digest read and no unremovable body, the digest Run registers is that of a genuine file or of what its own build wrote |
| `Exclusion.AtMostOneLeaseHolder` | modules/primer/orchestrator.go:161-198 | At every point of every run without a stale release at most one primer is building under an unexpired lease, and the stored lock then carries its name at least as long |
| `Exclusion.LockFollowsItsTrace` | modules/primer/directory.go:129-168 | Every run of the protocol moves the lock as its trace of lock commands does, so the lease theorems hold of it |
| `Exclusion.HeartbeatExcludesOtherBuilders` | modules/primer/orchestrator.go:158-198 | While a granted primer's renewals are timely, under any interleaving, provided no release under the holder's own endpoint lands meanwhile (an earlier process's included), the lock stays its own and no other primer starts to build |
| `Exclusion.TheRenewalLoopGoesOn` | modules/primer/orchestrator.go:173-190 | Under the same hypotheses, the one on releases included, no renewal is refused: the granted primer goes on building and renewing until its own build ends or its process dies |
| `Runs.OneBuildsTheOtherPulls` | modules/primer/orchestrator.go:64-230 | Two primers starting at once against an empty directory can end with one build, one verified pull of the same bytes, both registered and the lock gone |
| `Runs.AnUnreadDigestBreaksLineage` | modules/primer/orchestrator.go:144-150 | A failed read of the stored digest lets any bytes become the archive |
| `Runs.ALegacyEntryBreaksLineage` | modules/primer/orchestrator.go:144-150 | So does, without any fault, every start with an entry without a digest and a primer that may pull through it |
| `Runs.AKillMidPullBreaksLineage` | modules/primer/orchestrator.go:82-103 | A kill in mid-pull leaves bytes that the next start registers as a local hit |
| `Runs.AnUnremovedBodyBreaksLineage` | modules/primer/peer.go:108-119 | A rejected body that cannot be removed can end up registered |
| `Runs.AStaleReleaseBreaksExclusion` | modules/primer/directory.go:156-168 | A dead process's release deletes its successor's lease and two primers build at once |
| `ArchiveKey.PreimageDecodes` | modules/primer/archive.go:56-58 | A decoder undoes the join whenever the first four parts have no separator, whatever the profile is called |
| `ArchiveKey.PreimageIsInjective` | modules/primer/archive.go:56-58 | Equal preimages of such ingredients mean equal ingredients |
| `ArchiveKey.PreimageIsUniqueExactlyWithoutPipes` | modules/primer/archive.go:56-58 | No other ingredients at all share a preimage if and only if JVM line, architecture and profile have no separator |
| `ArchiveKey.HexReadsBack` | modules/primer/archive.go:27-27 | Two digits per byte, the high half first, give the byte back |
| `ArchiveKey.HexIsInjective` | modules/primer/archive.go:27-27 | Hex digests are equal only for equal bytes |
| `ArchiveKey.DigestsDetermineIngredients` | modules/primer/archive.go:43-60 | Equal digests mean equal jars, JVM line, architecture and profile, or an explicit collision of the hash |
| `ArchiveKey.ComputeKey` | modules/primer/archive.go:43-60 | Fails exactly when a jar is unreadable or java printed nothing but blanks; otherwise gives the first 16 digits of the digest of the ingredients, the JVM one being the first line of the output |
| `ArchiveKey.JvmLineIsTheFirstLine` | modules/primer/archive.go:30-38 | The JVM line starts at the first character that is not blank and ends before the next newline, or with the last character that is not blank; it is empty only for a blank output |
| `Workload.PodTemplate.EnsureVolume` | modules/operator/controllers/workload_patch.go:88-102 | A volume named cc-archive is left alone, otherwise a host path to the directory is appended under that name; the flag says whether anything changed |
| `Workload.PodTemplate.EnsureInitContainer` | modules/operator/controllers/workload_patch.go:104-124 | Put first if no container has the name; else the first that has it is left if image and command fit, or replaced in place; its script waits for the file of directory and key; the flag is exact |
| `Workload.PodTemplate.AddMount` | modules/operator/controllers/workload_patch.go:149-159 | One container's mounts: one named cc-archive is left alone, else a read-only one of the directory is appended; the others untouched; the flag is exact |
| `Workload.PodTemplate.AddEnv` | modules/operator/controllers/workload_patch.go:161-181 | One container's first CLASSCACHE_JAVA_OPTS then has the archive file of directory and key as a whole option and ends in -Xshare:on; everything else untouched; the flag is exact |
| `Workload.OptsBootFrom` | modules/operator/controllers/workload_patch.go:161-168 | The JVM options hold " -XX:SharedArchiveFile=<file> " after the options that allow it, end in " -Xshare:on", and are equal only for equal files |
| `Workload.ScriptWaitsFor` | modules/operator/controllers/workload_patch.go:126-133 | The script tests [ -s <file> ] and exits well on it |
| `Workload.PodTemplate.EnsureWorkloadMountAndEnv` | modules/operator/controllers/workload_patch.go:135-147 | Every container gets mount and entry, as EverythingNamesTheSameFile spells out; the flag is exact |
| `Workload.PodTemplate.ApplyPodPatch` | modules/operator/controllers/workload_patch.go:73-86 | The edit in place equals the patch function of the laws below, EverythingNamesTheSameFile among them, and the flag is true if and only if the template is now another one |
| `WorkloadLaws.TheEarlierKeyIsForgotten` | modules/operator/controllers/workload_patch.go:80-193 | With one directory, patching for one key and then another is patching for the other, exactly unless the template came half set up for it |
| `WorkloadLaws.LastKeyWins` | modules/operator/controllers/workload_patch.go:80-181 | Any non-empty sequence of patches with one directory amounts to its last one, if and only if all keys are the last one or the template did not come half set up for it; so always without our init container |
| `WorkloadLaws.OnlyANewKeyChangesAPatchedTemplate` | modules/operator/controllers/workload_patch.go:73-86 | A patched template is changed by another patch if and only if the key is another one; so a second application changes nothing |
| `WorkloadLaws.TheDirectoryIsNotRepointed` | modules/operator/controllers/workload_patch.go:88-124 | For a template without our names a second patch makes up for the first if and only if the directory is the same |
| `WorkloadLaws.EverythingNamesTheSameFile` | modules/operator/controllers/workload_patch.go:126-181 | After any patch the first init container of our name waits for <dir>/<key>.jsa, the first options variable of every container boots from that very file, and volume and mounts are there |
| `WorkloadLaws.ForeignEntriesAreUntouched` | modules/operator/controllers/workload_patch.go:88-181 | Erasing what is under our names gives the same template before and after, order included |
| `WorkloadLaws.ForeignEntriesSurviveAllPatches` | modules/operator/controllers/workload_patch.go:88-181 | The same for any sequence of patches |
| `WorkloadLaws.ScriptDeterminesFile` | modules/operator/controllers/workload_patch.go:126-133 | Equal wait scripts wait for the same file |
| `WorkloadLaws.OptsDetermineKey` | modules/operator/controllers/workload_patch.go:161-168 | With one directory the JVM options are equal if and only if the keys are |
| `WorkloadLaws.InitDeterminesKey` | modules/operator/controllers/workload_patch.go:104-112 | With one directory our init containers are equivalent if and only if the keys are equal |
| `MergePatch.KeyPatchChangesOnlyTheKey` | modules/primer/status_publisher.go:67-97 | On any stored document the patch sets the key and changes the value at no other path |
| `MergePatch.KeyPatchIsAFieldUpdate` | modules/primer/status_publisher.go:67-97 | On a serialized ClassCache it is the update of that one field; phase, peers, lastError and conditions are kept |
| `MergePatch.StatusJsonIsInjective` | modules/operator/api/v1/classcache_types.go:118-137 | Serialization of the status loses nothing |
| `Operator.ApiServer.UpdateStatus` | modules/operator/controllers/classcache_controller.go:83-92 | A whole-status write from an outdated copy is refused and changes nothing |
| `Operator.PublishArchiveKey` | modules/primer/status_publisher.go:67-97 | Succeeds without a publisher, or on an answer below 300; the key of whatever is current is then set, and otherwise only if an unanswered patch was applied all the same |
| `Operator.Workloads.ReconcileWorkload` | modules/operator/controllers/workload_patch.go:35-71 | Which error it gives and when; no error if and only if a Deployment is asked for that is missing, or fits, or could be written, and then its template is the patched one; only such a write changes anything |
| `Operator.Reconciler.Reconcile` | modules/operator/controllers/classcache_controller.go:37-126 | No outcome changes key or spec; a stale copy writes no status; exactly when it succeeds; the workload is patched for a published key only; a failure is reported as the first error; a success reports Ready if and only if a primer is ready, the mode is Owned, the Deployment carries our init container and all of its replicas (at least one) are ready, WorkloadPatched if only the replicas fail, Pending without a ready primer, PrimerReady otherwise, and the number of ready primers |
| `Operator.WhatThePhasesMean` | modules/operator/controllers/classcache_controller.go:128-152 | The four phases and the peer count, each by an if-and-only-if over what was found |
| `Operator.Handle` | modules/operator/webhook/pod_mutator.go:32-92 | Which pods are rejected, left alone and mutated, in both directions; a pod leaves with the shared patch for the published key exactly if it carries the label and the ClassCache is in Webhook mode with a key |
| `Platform.TheKeyIsTheLastPatch` | modules/operator/controllers/classcache_controller.go:37-126 | In every interleaving of stale reconciles, failures, spec edits and patches the key is that of the most recent patch |
| `Platform.PatchesKeepTheReport` | modules/primer/status_publisher.go:67-97 | However many patches land, phase, peer count and error stay |
| `Platform.AnUndisturbedReconcilePatches` | modules/operator/controllers/classcache_controller.go:72-92 | With a published key three steps take the newest template to the patched one and the report to the new one |
| `Platform.PrimersRunAsInCluster` | modules/primer/orchestrator.go:64-132 | Inside the platform the primers of every archive make a run of the cluster model, so its theorems hold of them |
| `Platform.NobodyWaitsForAnUnregisteredArchive` | modules/operator/webhook/pod_mutator.go:51-77 | In every run, every template or pod with our init container waits for a non-empty key, and for it the directory has executed the record and the membership some primer sent for an archive file it had |
| `EndToEnd.AWorkloadComesToWait` | modules/operator/controllers/classcache_controller.go:72-92 | From every fresh installation with a workload, two primers and a ClassCache that patches Deployments there is a run after which the newest template waits for the archive of the key that both primers have registered |
| `EndToEnd.ServersHavePublished` | modules/primer/orchestrator.go:103-131 | No primer serves that has not come to the publication of its key |
| `JsonEscape.Escape` | demos/05-apm-v01/app/src/main/java/com/example/apm/runtime/exporter/StdoutJsonExporter.java:32-52 | The lazily allocating loop equals the character-by-character escaping; null gives the empty string |
| `JsonEscape.EscapedReadsBack` | demos/05-apm-v01/app/src/main/java/com/example/apm/runtime/exporter/StdoutJsonExporter.java:32-52 | A reader for section 7 of RFC 8259 gets every 16-bit string back and stops at the closing quote, whatever follows |
| `JsonEscape.NoRawControls` | demos/05-apm-v01/app/src/main/java/com/example/apm/runtime/exporter/StdoutJsonExporter.java:32-52 | No raw control character is left |
| `JsonEscape.OnlySpecialsAreEscaped` | demos/05-apm-v01/app/src/main/java/com/example/apm/runtime/exporter/StdoutJsonExporter.java:32-52 | A string stays itself if and only if it has no quote, backslash or control character |
| `JsonEscape.PrintAttrs` | demos/05-apm-v01/app/src/main/java/com/example/apm/runtime/exporter/StdoutJsonExporter.java:21-28 | The loop with its first-flag prints the pairs separated by commas |
| `JsonEscape.AttrsReadBack` | demos/05-apm-v01/app/src/main/java/com/example/apm/runtime/exporter/StdoutJsonExporter.java:21-28 | The printed attributes read back as the same pairs in the same order |
| `Spans.Tracer.StartSpan` | demos/05-apm-v01/app/src/main/java/com/example/apm/runtime/Tracer.java:13-22 | The new span continues the trace of the thread's top span as its child, or starts one, and is now on top |
| `Spans.Tracer.EndSpan` | demos/05-apm-v01/app/src/main/java/com/example/apm/runtime/Span.java:30-34 | Stamped and exported every time, popped only from the top of the calling thread's stack |
| `Spans.Tracer.EndHttpSpan` | demos/05-apm-v01/app/src/main/java/com/example/apm/runtime/Tracer.java:40-48 | A null span does nothing; an exception adds its class, and its message if it has one, before the end |
| `Spans.Tracer.SetExporter` | demos/05-apm-v01/app/src/main/java/com/example/apm/runtime/Tracer.java:54-56 | Null never replaces the exporter |
| `Spans.Span.SetAttr` | demos/05-apm-v01/app/src/main/java/com/example/apm/runtime/Span.java:26-28 | Null keys and values are ignored |
| `Spans.SpanContext.Current` | demos/05-apm-v01/app/src/main/java/com/example/apm/runtime/SpanContext.java:12-14 | The top span or null; asking creates the thread's stack |
| `Spans.SpanContext.Pop` | demos/05-apm-v01/app/src/main/java/com/example/apm/runtime/SpanContext.java:20-26 | Only the top span itself is popped, and an empty stack is dropped |
| `Spans.StacksStayLinked` | demos/05-apm-v01/app/src/main/java/com/example/apm/runtime/Tracer.java:13-22 | In any run, with ends out of order, repeated or on other threads, one stack has one trace and every parentId is the spanId beneath |
| `Spans.ThreadsAreIndependent` | demos/05-apm-v01/app/src/main/java/com/example/apm/runtime/SpanContext.java:7-26 | A thread's stack depends on its own operations only |
| `Spans.NestedThreadsRestoreTheirStack` | demos/05-apm-v01/app/src/main/java/com/example/apm/runtime/SpanContext.java:12-26 | A properly nested thread gets back its stack, whatever the others do |
| `Spans.OnlyAnEndOnTopRemoves` | demos/05-apm-v01/app/src/main/java/com/example/apm/runtime/SpanContext.java:20-26 | In any run an open span leaves its stack if and only if it is ended on its thread while on top |
| `Spans.OutOfOrderEndsLeak` | demos/05-apm-v01/app/src/main/java/com/example/apm/runtime/SpanContext.java:20-26 | Ending the outer of two spans first leaves it on the stack, whatever is nested in between |
| `Spans.NestedThreadsLeaveNothingBehind` | demos/05-apm-v01/app/src/main/java/com/example/apm/runtime/SpanContext.java:20-26 | After properly nested spans a thread holds a stack if and only if it held one before, whatever the others do |
| `Smaps.ParseKibField` | modules/cli/src/smaps.c:33-47 | Adds the number after the label modulo 2^64 if the line has both, and says so |
| `Smaps.SmapsConsume` | modules/cli/src/smaps.c:49-88 | The loop over getline equals the fold of the per-line step |
| `Smaps.Snapshot.AccumulateSmaps` | modules/desktop/app.go:298-342 | The loop over the split text equals the fold of the per-line step; one JVM more if any Rss line was counted (DumpsThatCount says for which dumps) |
| `SmapsLaws.RssIsNoticed` | modules/desktop/app.go:298-342 | A text counts as a JVM if and only if one of its lines is an Rss field after a .jsa header with no VmFlags line in between |
| `SmapsLaws.DumpsThatCount` | modules/desktop/app.go:298-342 | A dump counts as a JVM if and only if a mapping that is counted has an Rss field; on closed dumps, a .jsa mapping |
| `SmapsLaws.StrtoullReads` | modules/cli/src/smaps.c:33-47 | Leading space, sign and digits: saturating, and negated modulo 2^64 by a minus sign |
| `SmapsLaws.WordsOfCounters` | modules/cli/src/smaps.c:79-84 | Which word of a field line goes with which counter |
| `SmapsLaws.CFieldReads` | modules/cli/src/smaps.c:33-47 | On a well-formed field line the C parser finds a counter if and only if it is the one the line names, and reads its number |
| `SmapsLaws.GoFieldReads` | modules/desktop/app.go:313-320 | On the same lines the Go parser reads name and number |
| `SmapsLaws.CScannerIsTheBlockSum` | modules/cli/src/smaps.c:49-88 | On the text of every well-formed dump each counter is the sum over exactly the mappings that mention the needle |
| `SmapsLaws.GoScannerIsTheBlockSum` | modules/desktop/app.go:298-342 | The Go scanner adds that sum, plus what follows unclosed .jsa mappings, to what the snapshot holds |
| `SmapsLaws.ScannersAgreeExactly` | modules/desktop/app.go:295-342 | Both scanners give one counter the same value if and only if nothing leaks into it |
| `SmapsLaws.ScannersAgreeOnClosedDumps` | modules/desktop/app.go:295-342 | On dumps whose .jsa mappings are closed the two scanners agree on all six counters |
| `SmapsLaws.AnOpenBlockLeaks` | modules/desktop/app.go:302-311 | A dump on which they differ |
| `SmapsLaws.CDumpsAdd` | modules/cli/src/smaps.c:49-88 | Scanning two dumps as one text adds their totals |
| `SmapsLaws.GoDumpsAdd` | modules/desktop/app.go:298-342 | The same for the Go scanner on closed dumps |
| `Stats.NodeSet.Add` | modules/cli/src/stats.c:134-148 | Stays duplicate-free; a new non-empty name is appended unless the array cannot grow, which is the only -1; everything else changes nothing |
| `Stats.CollectNodes` | modules/cli/src/stats.c:216-225 | Holds only nodes of listed pods, each once, and all of them unless memory ran out |
| `Stats.AggregateNode` | modules/cli/src/stats.c:106-122 | Sums every readable process that shows an archive, by docker if that shows any, else by pod; fails exactly when neither does |
| `Stats.ARowIsItsNodesOwn` | modules/cli/src/stats.c:85-104 | What pods on other nodes say makes no difference to what is sampled for a node |
| `Stats.EveryPodIsReportedOnce` | modules/cli/src/stats.c:67-122 | Over a list of all nodes, such as CmdStats collects, the samples are, as a multiset, every read that shows an archive: through docker on the nodes for which it speaks, and of every other scheduled pod, once each |
| `Stats.JvmsAreCounted` | modules/cli/src/stats.c:234-281 | TOTAL's number of JVMs is the number of sampled processes |
| `Stats.MemorySharing` | modules/cli/src/stats.c:234-288 | One guarded row per node that can be sampled, in list order, and the TOTAL of exactly those rows |
| `Stats.CmdStats` | modules/cli/src/stats.c:213-291 | Every node of a listed pod is sampled once, provided the allocator grants the node list eight entries and twice the number of nodes; never a node twice |
| `Stats.TheTotalConservesSavings` | modules/cli/src/stats.c:251-273 | TOTAL's unguarded difference equals the sum of the guarded rows modulo 2^64 if and only if the excess of Pss vanishes there; without overflow, if and only if no row has more Pss than Rss |
| `Stats.TheTotalIsWhatTheSamplesSave` | modules/cli/src/stats.c:234-281 | If no process shows more Pss than Rss, TOTAL is the sum over all sampled processes of Rss minus Pss |
| `Stats.ReadingADumpKeepsOrder` | modules/cli/src/smaps.c:49-88 | Pss at most Rss in every mapping carries over to the totals read from the dump |
| `Stats.TheReportConservesSavings` | modules/cli/src/stats.c:213-281 | If Pss is at most Rss in every mapping of every dump and the sums fit, TOTAL is the sum of the rows and of what every sampled process saves |
| `Desktop.GoScanAdds` | modules/desktop/app.go:298-342 | Scanning any text into a snapshot adds what scanning it into an empty one gives |
| `Desktop.SampleSavings` | modules/desktop/app.go:246-293 | Whatever order the map of nodes is ranged over, each counter and the mapped size is the sum over answering nodes and over the pods of the others, and the number of JVMs is the number of dumps read that show the Rss of an archive mapping; the saving is guarded |
| `Desktop.EveryPodIsSampledOnce` | modules/desktop/app.go:257-288 | If the processes on every answering node are those of its pods, every figure of the sample is what reading every pod once gives, whichever nodes answer |

## Left out

- The JVM build, warm-up, jar extraction and the archive format (`modules/primer/builder.go`).
- HTTP, TLS, sockets and the Redis wire format; `handleArchive` is subsumed by peers that serve any bytes.
- Valkey data loss, several primers on one archive directory, and a kill in the middle of an archive dump.
- Events, log lines, the retries of the readiness wait and the size argument of the publisher.
- The Kubernetes object builders (primer, RBAC, Valkey, profile); in `Operator` they are one optional error.
- Finalizers and deletion of derived objects; the API server's admission and validation.
- The Python primer of `demos/04-cluster-primer`, the React UI, kubectl and docker calls, printing and percentages.
- `parseCPU`, `parseMem`, `splitAddr`, `BuildArgs` and profile field checks: one-branch facts.
- `startHttpSpan`, the random identifiers and the fields of an exported span other than its attributes.
- The number of JVMs that the desktop shows next to the C report: the two treat an Rss of 0 differently.
- Smaps.Snapshot.AccumulateSmaps: Unicode spaces in strings.Fields are not modelled, smaps is ASCII.
- Smaps.SmapsConsume: a read error in the middle of a dump and NUL bytes in lines are not modelled.
- Stats.NodeSet.Add: a failing strdup is not modelled.
- Stats.MemorySharing: the width of the C `int` that counts JVMs is not modelled.
- Solo.EveryOutcomeIsARun: covers the successful outcomes of Run, and leaves the lock and the polls that failed out.
