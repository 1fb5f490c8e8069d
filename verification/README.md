# Raft-replicated control plane and replica digests: a Dafny model

Weaviate keeps its schema, aliases, namespaces and cluster identity in a state
machine replicated by raft. Each node rebuilds that state from snapshots and log
entries and lets its local database follow it. This project models that control
plane, the placement operations built on it, and the digest exchange between
replicas, and proves what they keep over every input, every log and every run.

Run `dafny verify dfyconfig.toml` to check all of it.

## How the model is laid out

| file | what it models |
|---|---|
| `Fsm.dfy` | the replicated state, the commands, what one committed command does |
| `History.dfy` | the same state read off the log: what put each thing there, and what took it away |
| `LogScan.dfy` | the log store and the backward scan for its last command |
| `Node.dfy`, `Store.dfy` | one node: the store's transitions as functions on values, and the class with the store's fields that is proved to compute them |
| `Snapshots.dfy` | capture, install, cluster identity |
| `Incarnations.dfy`, `CatchUp.dfy` | shards as the log creates them, and the orphans a node records while it catches up |
| `InStep.dfy` | when the open indexes and the directories are in step with the schema, under a reload, a live command, an install |
| `NodeRun.dfy` | whole runs of a node: apply, snapshot, install, log overwrite, compaction, staging of backups, crash, reopen |
| `Restart.dfy` | the database over whole runs: when it loads, and from then on |
| `Publish.dfy` | the index a node publishes, which readers wait on |
| `Scenarios.dfy`, `DiskWitness.dfy` | runs that every log has, and concrete ones in which database and schema part ways |
| `Admission.dfy`, `Propose.dfy` | the checks before an append, the catch-up gate, `Execute` and its retry loop |
| `Cluster.dfy`, `ClusterSafety.dfy` | proposers on many nodes: elections, barriers, locks, judgement, append, in any order |
| `LogSafety.dfy`, `RaceWitness.dfy` | what holds of every log a cluster commits, and the race that the checks leave open |
| `NamespaceFlip.dfy` | the compare-and-set on the state change index |
| `HomeNode.dfy` | the round-robin allocator of home nodes |
| `Rebalance.dfy`, `ScalePlan.dfy` | replica placement: after a node departure, and by a scale plan |
| `CompareRoots.dfy` | the pooled request graph of a compare-roots session |
| `Digests.dfy`, `CompareDigests.dfy` | the binary records, the text form of ids, the negotiation of dialects |

Code that updates things in place is a class or a method with loops (`Store`,
`LogStore`, `Proposer`, `Allocator`, `Schema`, `Raft`, `Session`, `Reader`). Code
that only computes is a function. Go maps are iterated by picking an arbitrary
remaining key, so every result holds for every iteration order.

## What is assumed

- The database is a set of open indexes with the shards they hold, and a directory
  per shard. Both go by the class name in lower case. A directory carries the index
  of the entry it was created for, so that the files of a dropped shard and of one
  created again under its name differ. The node holds every shard of every class,
  tenants are active or inactive, and opening a shard creates its directory (lazy
  loading only delays that).
- What reload makes of two classes that go by one index depends on the order and the
  timing of goroutines. The model leaves the outcome for that index open; every
  result holds for all of them.
- Raft is taken at its word. A term has one leader, which appends after everything
  it inherited. A new leader's log is part of an earlier leader's log and holds
  every committed entry. A leader applies its own log. Raft never rewrites an
  applied entry, drops only entries that a stored snapshot covers, installs no snapshot
  older than what was applied, and takes none of an empty state machine.
- A proposal is appended in the term its catch-up check confirmed. The code reads
  the term and appends in two steps, so this is a premise of `CanAppend`;
  `RaceWitness.StaleJudgementBreaksCap` shows what goes wrong without it.
- The managers that are not modelled in detail (RBAC, users, distributed tasks,
  replication operations, the inside of a class) are arbitrary functions of the
  state, the command and its index. Every theorem holds for all of them.
- No request changes the status of one tenant twice; the REST layer refuses that
  (usecases/schema/tenant.go:117-143).
- Clocks, randomness, transport failures, lagging local reads and the outcome of
  remote calls are parameters. The tenant cap is fixed over a run.
- Storage candidate lists and replica lists hold no name twice. A lagging read of a
  shard's replicas during a rebalance may miss some, but shows none that is not there.
- Text ids are read by the UUID library; its four accepted forms are modelled as
  section 3 of RFC 4122 and that library's documentation describe them.

## What turned out to be false, and exactly when it holds

The first three speak of each index by itself: the index is *followed* when it is open
for the one class that goes by it, with exactly the active shards, and its
directories *agree* when each is of a shard's present incarnation and every active
shard has one.

- *A loaded database holds open what the schema names.* When it loads, in every run, an
  index is followed if and only if one class at most goes by it, and none does if it
  went by a recorded orphan under another spelling (`Restart.LoadFollowsIff`). From then
  on it stays followed at every point of a stretch of a run if and only if no step of
  the stretch is one of these: a class added beside another spelling of its name, a
  delete that spells the class otherwise, an update that replaces the active shards, a
  tenant deletion without names while tenants are active, or an installed snapshot with
  two spellings, or one in place of another (`Restart.DbFollowsSchemaIff`). Runs that
  show it: `DiskWitness.RespelledClassIsDropped` (add, delete, add under another
  spelling, restart: the live class loses index and files),
  `DiskWitness.RespelledSnapshotDrops`, `DiskWitness.SecondSpellingHasNoIndex`,
  `DiskWitness.MisspelledDeleteDrops`, `DiskWitness.EmptyDeletionDropsAll` (the schema
  deletes no tenant, the database all of them). Two spellings meet only by a race
  (`LogSafety.CollisionIsRace`), which a cluster can run into
  (`RaceWitness.RunCommitsBothSpellings`). No proposer in the repository sends the
  update that replaces shards (cluster/raft_apply_endpoints.go:55).
- *After a restart the directories on disk agree with the schema.* They do if and only
  if one class at most goes by the index, and either it went by a recorded orphan and
  that class has no active shard, or every directory found is of a shard that is there
  and was not created since (`Restart.RestartAgreesIff`, over every run, whatever
  installs happened on the way and with the boundary scanned at open kept apart from
  the log that is committed). A tenant deleted by a replayed entry keeps its files,
  since only classes are recorded as orphans
  (`DiskWitness.ReplayedTenantDeleteKeepsFiles`). A class created again keeps the files
  of its first incarnation (`DiskWitness.RecreatedClassKeepsOldFiles`). A delete that
  runs live before the database is loaded finds no index to delete, which takes an
  overwritten log tail (`DiskWitness.OverwrittenTailKeepsFiles`).
- *A loaded node keeps its directories in agreement.* Over every stretch of every run
  they agree if and only if no step upsets them (`Restart.DiskFollowsSchemaIff`). Beside
  the steps above these are a restore from staged files of other shards, and a snapshot
  that holds a shard created again (`DiskWitness.InstalledClassKeepsOldFiles`), lost a
  shard of a single-tenant class, or lost an inactive tenant that has files
  (`DiskWitness.ColdTenantKeepsFiles`). A command takes away files of a shard the schema
  still names if and only if it is the nameless tenant deletion or the misspelled
  delete (`InStep.CommandKeepsNamedIff`).
- *While the database is not loaded, no apply since open has touched it.* It is
  touched exactly while an accepted command past the boundary is under way, before
  its deferred reload (`NodeRun.UnloadedDbIsTouchedIff`); the run of
  `DiskWitness.OverwrittenTailKeepsFiles` reaches that point.
- *The database effect of an entry happens at most once.* This holds of the store half
  (`NodeRun.DbActionRunsAtMostOnce`). The move of staged files of a class restore is
  not held back during replay: a replayed entry leaves the disk alone if and only if
  it is no restore of a class with files staged (`NodeRun.ReplayLeavesDiskAloneIff`).
  `DiskWitness.ReplayAdoptsStagedFiles` is a run in which one entry moves files
  twice and the second staging is lost. Each staging is still moved at most once
  (`NodeRun.MovesBoundedByStagings`).
- *A version the node holds is published.* An install publishes nothing. What a node
  holds is all published if and only if every install that jumped over a command was
  followed by a command (`Publish.AllPublishedIff`); after the run of
  `Publish.InstallHidesVersion` a reader waits for a version that is there. A version
  that `Apply` answered is always reached (`Publish.AnsweredStaysReached`).
- *Alias names are distinct up to case.* Creation and replacement both look a name up
  to case, but replacement stores it as it is spelled. Names stay distinct if and only
  if no replacement spells its alias otherwise (`History.AliasesApartIff`,
  `History.ReplaceAddsSpelling`). The one proposer sends the spelling it has read
  (usecases/schema/alias.go:158-173), so this takes a race.
- *The tenant cap holds of every committed prefix.* The check does not reach
  definitions that carry shards, nor additions judged before their class existed.
  The cap holds if and only if what those commands bring fits
  (`LogSafety.TenantCapIff`); `RaceWitness.RunExceedsCap` is a run of a cluster that
  exceeds it.
- *An addition that stays within the tenant cap is admitted.* The filter counts a new
  name once per mention. It is exact if and only if no new name is given twice
  (`Admission.CapIsExactIff`), which the request handler sees to
  (usecases/schema/tenant.go:118-143).
- *After a node departs, a shard short of nodes is skipped with a warning.* The
  apply side refuses a delete at the replication factor, so with exactly that many
  replicas the rebalance stops with an error (`Rebalance.DepartedNodeGoesIff`).
  The comment in the source promises best effort; the model follows the code. When
  calls can fail, one shard can be left partly topped up, never more
  (`Rebalance.Schema.RebalanceAfterNodeRemoval`).
- *A scale plan moves a replica whose source is being removed.* The removals of a
  shard come first, and a transfer is validated against the local schema. With
  current reads, no accepted plan that contains a move succeeds
  (`ScalePlan.Raft.ApplyReplicationScalePlan`).
- *A failed scale plan leaves no operation behind.* What stays is exactly the
  acknowledged operations whose force-delete was not applied, for the error is only
  logged, and the one whose own submission reported an error although it was applied.
  Nothing stays if and only if there is none of either (`ScalePlan.NothingStaysIff`);
  in `ScalePlan.TwoStayBehind` two operations stay.
- *A partial snapshot restores the cut.* It does if and only if the node's own copy
  of each missing section is current (`Snapshots.PartialSnapshotReachesCutIff`).

## Model

| member | source | states |
|---|---|---|
| `Fsm.PrefixDeterminesState` | cluster/store_apply.go:249-663 | Two logs that agree on a prefix give the same state for it, whatever the managers do. |
| `Fsm.ReplayResumes` | cluster/store_apply.go:249-663 | Replaying entries i+1..j on the state at i gives the state at j. |
| `Fsm.SeparatorAt` | usecases/schema/namespacing/resolver.go:46-51 | The namespace of a qualified name ends at its first separator. |
| `Fsm.QualifiedName` | usecases/schema/namespacing/resolver.go:43-51 | The namespace of a qualified name is what was put in front of the separator; a name without one has none. |
| `Fsm.CanonicalKeeps` | entities/schema/schema.go:62-92 | The stored form of an alias has its namespace, differs at most in the case of the first letter of the name proper, and makes that upper case. |
| `History.ClassIsThereIff` | cluster/schema/manager.go:441-517 | A class is in the schema exactly if some entry created it and none has deleted it since, by the commands alone. |
| `History.ShardIsThereIff` | cluster/schema/meta_class.go:330-397 | A shard is there exactly if some entry brought it and none has taken it since. |
| `History.StatusUpdated` | cluster/schema/meta_class.go:455-580 | After an update of status a tenant is active exactly if it is named free to activate, or was active and is not named free to deactivate; no other class, tenant or incarnation changes. |
| `History.ShardIsActiveIff` | cluster/schema/meta_class.go:455-580 | A shard is active exactly if some entry made it so and none has made it inactive or taken it since. |
| `History.AliasPointsAtIff` | cluster/schema/schema.go:851-890 | An alias points at a class exactly if some entry pointed it there and none has pointed it elsewhere or deleted it since. |
| `History.AliasesApartIff` | cluster/schema/schema.go:877-903 | Alias names are distinct up to case at every prefix if and only if no replacement spells its alias otherwise. |
| `History.ReplaceAddsSpelling` | cluster/schema/schema.go:877-903 | Concrete log: an alias replaced under another spelling is there twice. |
| `History.NamespaceIsInStateIff` | usecases/namespaces/controller.go:104-127 | A namespace is in a state exactly if some entry put it there and none has put it in another or removed it since; which flips do is said by states. |
| `History.NamespaceIsAtHomeIff` | usecases/namespaces/controller.go:206-251 | The same for its home node. |
| `History.TakesIff` | cluster/store_apply.go:249-663 | Which commands take effect, by what they create, rewrite, delete, point or flip; setting an empty cluster id and commands of no known type never do. |
| `History.ManagersKeepLastWord` | cluster/store_apply.go:249-663 | Every other manager holds what it made of the last command that took effect. |
| `History.ClassKeepsLastWord` | cluster/schema/manager.go:529-680 | The inside of a class is what the last command that rewrote it made of it. |
| `LogScan.LogStore.LastAppliedCommand` | cluster/log.go:21-48 | The scan returns the greatest command index, or 0 when there is none, also over holes and without unsigned underflow; it fails exactly when an unreadable index comes before any command. |
| `LogScan.LogStore.GetLog` | cluster/log.go:37-42 | A miss or failed read leaves the reused record as it was, which the scan must survive. |
| `Store.Store.constructor` | cluster/store.go:369-437 | A new store is empty on a work directory that survived. |
| `Store.Store.SetClusterID` | cluster/store.go:1208-1213 | First writer wins. |
| `Store.Store.ReloadLocalDB` | adapters/repos/db/migrator.go:389-530 | For every order of the classes: each index missing is opened with the active shards of its class, an open one gains and loses shards; only tenants it holds that the schema dropped lose their directories, and surviving directories are reused. |
| `Store.Store.DropOrphanedClasses` | cluster/schema/manager.go:307-331 | The loop removes the lower-case index and directories of exactly the recorded classes whose exact names the schema does not have, and empties the record. |
| `Store.Store.ReloadDB` | cluster/schema/manager.go:417-435 | Reload brings every index and directory in line with the schema as far as the open indexes and the orphan records allow. |
| `Store.ReloadIsOrderFree` | usecases/schema/executor.go:68-102 | Where no names differ only in case, what a reload leaves does not depend on order or timing. |
| `Store.Store.ReloadDBFromSchema` | cluster/store.go:1027-1056 | Reload, and before raft exists the schema-only boundary becomes max(snapshot, last command), a failed read counting as 0. |
| `Store.Store.UpdateStore` | cluster/schema/manager.go:1134-1206 | The store half per command: class and tenant commands open, close, create and remove shards through an open index of the lower-case name, and without one leave the disk alone; a tenant deletion without names is one of all tenants. |
| `Store.Store.Dispatch` | cluster/schema/manager.go:489-517 | Staged files move first, replay or not; then the schema; then the database unless the entry is a replay; a schema-only class delete records an orphan. |
| `Store.Store.Apply` | cluster/store_apply.go:249-663 | The field updates compute one transition of the node; every command, refused or not, publishes its index last and is answered with it. |
| `Store.Store.Persist` | cluster/store_snapshot.go:40-48 | What is stored is the captured value, whatever the store holds by then. |
| `Store.Store.RestoreManagers` | cluster/store_snapshot.go:118-200 | Present sections replace, missing ones are kept, the id is set once, dropped classes become orphans. |
| `Store.Store.Restore` | cluster/store_snapshot.go:118-232 | Restore reloads the database exactly when the snapshot reaches the schema-only boundary. |
| `Store.Store.OpenDatabase` | cluster/store.go:488-515 | The scanned boundary and the restore that raft runs while it is constructed give the opened node. |
| `Store.Store.Open` | cluster/store.go:503-558 | Open succeeds exactly when the log scan is not blocked, and then yields the opened node of the run model. |
| `Store.Store.WaitForAppliedIndex` | cluster/store.go:816-840 | The wait succeeds exactly when some poll reads an index that reaches the version. |
| `Snapshots.ClusterIDIsFirstSet` | cluster/store_apply.go:667-677 | The identity is the first non-empty id set in the prefix, a function of the log alone. |
| `Snapshots.ClusterIDIsStable` | cluster/store.go:1206-1213 | Once set it never changes as the log grows. |
| `Snapshots.InstallReachesCut` | cluster/store_snapshot.go:118-200 | Installing a full cut over any earlier prefix gives exactly the state of the cut. |
| `Snapshots.SnapshotPlusReplay` | cluster/store_snapshot.go:33-48 | A cut at i, installed on a fresh or lagging node and followed by i+1..j, equals applying 1..j. |
| `Snapshots.PartialSnapshotReachesCutIff` | cluster/store_snapshot.go:118-200 | With sections missing the cut is reached if and only if the node's own copies are current. |
| `Snapshots.TornSnapshotDiverges` | cluster/store_snapshot.go:64-113 | Why all sections must come from one state: a torn snapshot can make replay diverge. |
| `NodeRun.StepKeepsInv` | cluster/store_apply.go:272-300 | Every step of a node, crashes and log overwrites included, keeps the node invariant. |
| `NodeRun.RunKeepsInv` | cluster/store.go:488-558 | The invariant holds at every point of every run. |
| `NodeRun.ReopenCoversActions` | cluster/store.go:488-515 | Every entry whose database action ever ran lies at or below the boundary a reopen computes. |
| `NodeRun.LiveEntryIsNew` | cluster/store_apply.go:272-279 | An entry that runs live has never run before. |
| `NodeRun.DbActionRunsAtMostOnce` | cluster/store_apply.go:272-279 | Over any crashes and reopens the store half of an entry runs at most once, and later replays of it are schema-only. |
| `NodeRun.ReplayLeavesDiskAloneIff` | cluster/schema/manager.go:489-517 | A replayed entry leaves disk and staging area alone if and only if it does not restore a class that has files staged. |
| `NodeRun.MovesBoundedByStagings` | usecases/backup/backend.go:1119-1146 | In every run the staged files of a class are moved no more often than they were staged. |
| `NodeRun.CutIsFold` | cluster/store_snapshot.go:64-113 | At every point of every run the captured and the stored snapshot are the fold of the committed entries their index counts, however much was applied since the capture. |
| `NodeRun.UnloadedDbIsTouchedIff` | cluster/store_apply.go:276-300 | At every point of every run a database not loaded has been touched since open if and only if an accepted command past the boundary is under way; otherwise nothing is open. |
| `NodeRun.PublishedIndexIsAbsorbed` | cluster/store.go:816-840 | Read your writes: once the published index reaches a version, the state is the fold of a committed prefix at least that long. |
| `Publish.PublishedIsLastApplied` | cluster/store_apply.go:276-300 | At every point of every run the published index is the greatest command applied since open, or else the snapshot opened on. |
| `Publish.AnsweredStaysReached` | cluster/store.go:815-842 | The version Apply answered is published when it returns and stays reached for the rest of the process. |
| `Publish.AllPublishedIff` | cluster/store_snapshot.go:118-232 | Every command a node holds is published if and only if every install that jumped over a command was followed by a command. |
| `Publish.NoInstallAllPublished` | cluster/store_apply.go:276-300 | Without installs since open every command held is published. |
| `Publish.InstallHidesVersion` | cluster/store_snapshot.go:118-232 | A run: a command that came with a snapshot is held and not published. |
| `NodeRun.NodeClusterID` | cluster/store.go:1206-1261 | On every node, at every point, the id is the first one set in the absorbed prefix. |
| `NodeRun.NodesAgreeOnClusterID` | cluster/store_apply.go:667-677 | Two nodes never hold different ids, at any two points of their runs. |
| `Incarnations.ShardBornStable` | cluster/schema/meta_class.go:330-397 | A shard present at n has been the same incarnation ever since its creating entry. |
| `Incarnations.OneClassPerBirth` | cluster/schema/meta_class.go:330-397 | Every shard was created by an entry that took effect and names its class. |
| `CatchUp.GoneIsRecorded` | cluster/schema/manager.go:274-305 | Every class of state d that is gone later is recorded as an orphan, whether the node replayed its delete or skipped it by an install, once it stood at d. |
| `InStep.ReloadFollowsIff` | adapters/repos/db/migrator.go:389-530 | Whatever was open: after a reload an index is followed if and only if no other class goes by it, no dropped orphan does, and it was not open for another class. |
| `InStep.ReloadAgreesIff` | adapters/repos/db/migrator.go:389-530 | Whatever was on disk: the directories of an index end as the schema wants them if and only if it is dropped and the class that goes by it has no active shard, or every directory found is of the present incarnation or of a tenant the index holds and the schema dropped; missing ones are always created. |
| `InStep.CommandFollowsIff` | cluster/schema/manager.go:1134-1206 | A live command keeps an index followed if and only if it is none of the four that break it, stated by the command and the schema alone. |
| `InStep.CommandAgreesIff` | cluster/schema/manager.go:1134-1206 | A live command keeps the directories of an index in agreement if and only if it is none of those that upset them. |
| `InStep.CommandKeepsNamedIff` | cluster/schema/schema.go:697-738 | A live command removes the directory of a shard that stays in the schema, active or not, if and only if it is a tenant deletion without names or a delete under another spelling. |
| `InStep.InstallFollowsIff` | cluster/store_snapshot.go:118-232 | A snapshot installed on a loaded node keeps an index followed if and only if it names one class at most that goes by it, and not one in place of another. |
| `InStep.InstallAgreesIff` | cluster/store_snapshot.go:118-232 | It keeps the directories in agreement if and only if moreover none was created again, and only active tenants or whole classes were dropped. |
| `Restart.LoadFollowsIff` | cluster/store.go:503-558 | In every run, at the step that loads the database: an index is followed if and only if one class at most goes by it and no orphan of another spelling did. |
| `Restart.LoadSettlesIff` | cluster/store.go:1027-1056 | In every run, whatever was staged and moved: exactly when the directories of an index agree once loaded. |
| `Restart.LoadAgreesIff` | cluster/store.go:503-558 | The same in terms of the directories the process found when it opened, through any replays and installs. |
| `Restart.RestartAgreesIff` | cluster/store.go:503-558 | The same read off the log: every directory found is of a shard that is there and was not created since the disk was in step, unless an orphan took the index with it. |
| `Restart.DbFollowsSchemaIff` | cluster/store_apply.go:272-300 | Over every stretch of every run of a loaded node, an index is followed at every point if and only if no step of the stretch is one of those that break it. |
| `Restart.DiskFollowsSchemaIff` | cluster/store_apply.go:272-300 | The same for index and directories together. |
| `Scenarios.Live` | cluster/store_apply.go:249-300 | Every log of harmless commands has a run that applies it live, and at its end every index is followed and every directory agrees. |
| `DiskWitness.EmptyDeletionDropsAll` | cluster/schema/schema.go:697-738 | A run: after a live tenant deletion without names an active tenant of the schema has neither an open shard nor files. |
| `DiskWitness.RespellingIsAdmitted` | cluster/schema/manager.go:348-408 | Adding a class, deleting it and adding it under another spelling passes the filter each time. |
| `DiskWitness.RespelledClassIsDropped` | adapters/repos/db/repo.go:680-698 | A run: those three applied live, then a restart; the class the schema names has neither index nor files. |
| `DiskWitness.RespelledSnapshotDrops` | cluster/store_snapshot.go:118-232 | A run: the same by a snapshot that a loaded node installs. |
| `DiskWitness.MisspelledDeleteDrops` | adapters/repos/db/repo.go:737-767 | A run: a live delete under another spelling leaves the schema as it is and drops the class's index and files. |
| `DiskWitness.SecondSpellingHasNoIndex` | adapters/repos/db/migrator.go:98-110 | A run: of two spellings added live the second has no index. |
| `DiskWitness.ColdTenantKeepsFiles` | adapters/repos/db/migrator.go:470-502 | A run: an inactive tenant dropped by an installed snapshot keeps its files. |
| `DiskWitness.OverwrittenTailKeepsFiles` | cluster/store_apply.go:272-300 | A run: the tail counted at open is overwritten, a class delete runs live before loading, and the loaded node keeps a directory of a class its schema does not have. |
| `DiskWitness.ReplayAdoptsStagedFiles` | usecases/backup/restorer.go:136-146 | A run: a replayed restore moves files staged since, and they are deleted with the orphan. |
| `DiskWitness.ReplayedTenantDeleteKeepsFiles` | cluster/schema/manager.go:1000-1045 | A run: a tenant whose delete is only replayed keeps its directory. |
| `DiskWitness.RecreatedClassKeepsOldFiles` | cluster/schema/manager.go:307-331 | A run: add, delete, add, with only the first applied before the crash, keeps the first incarnation's files. |
| `DiskWitness.InstalledClassKeepsOldFiles` | cluster/store_snapshot.go:118-232 | A run: the same when a loaded node skips the delete by installing a snapshot. |
| `Admission.RequireActive` | usecases/namespaces/require.go:22-34 | Passes exactly for no namespace or an active one; a refusal names what is the matter with the namespace. |
| `Admission.AdmitDestructiveApply` | usecases/namespaces/require.go:36-58 | The same for deletions, which also pass in deleting. |
| `Admission.AdmitRoles` | cluster/store_apply.go:137-201 | The loop over roles passes exactly when every role's namespace is active, and a refusal is that of one of them. |
| `Admission.AdmitPropose` | cluster/store_apply.go:90-230 | The step-by-step admission decides exactly the predicate the cluster theorems use, and a refusal fits the state of a namespace the command concerns. |
| `Admission.ConcernedIs` | cluster/store_apply.go:124-230 | Which commands are judged by which namespace, and that all others are judged by none. |
| `Admission.AdmitsIff` | cluster/store_apply.go:90-230 | A command is admitted exactly if every namespace it is judged by is none, or active, or deleting and the command a deletion, and the subject of a role assignment is known. |
| `Admission.CapIsExactIff` | cluster/schema/schema.go:629-646 | For every cap, the additions admitted are exactly those that stay within it, if and only if no new name is given twice. |
| `Admission.FindFolded` | cluster/schema/schema.go:163-175 | The loop finds a name equal up to case exactly when there is one. |
| `Admission.ClassEqual` | cluster/schema/schema.go:163-175 | An alias or class equal up to case, aliases first, in any order. |
| `Admission.PreApplyFilter` | cluster/schema/manager.go:348-408 | The filter refuses names taken up to case, telling an existing class from a similar name, and exactly the additions whose count exceeds the cap. |
| `Admission.AdditionsCoverGrowth` | cluster/schema/schema.go:629-646 | What the filter counts never falls below the real growth, duplicates included. |
| `Admission.DeletingAdmitsOnlyCleanup` | usecases/namespaces/require.go:22-58 | Per namespace state, both directions: creations pass only in active, deletions in active and deleting. |
| `Propose.Proposer.constructor` | cluster/store.go:369-437 | No term is confirmed at start. |
| `Propose.Proposer.WaitLeaderFSMCaughtUp` | cluster/store.go:1065-1092 | The gate opens exactly for a memoised term or a successful barrier; one barrier per unconfirmed call; a failure stamps nothing. |
| `Propose.Proposer.Execute` | cluster/store_apply.go:30-88 | A command reaches raft exactly when the gate opened and both checks passed; the tenant lock is returned on every path. |
| `Propose.ExecuteWithRetry` | cluster/raft_apply_endpoints.go:316-367 | At most eleven attempts, all but the last retryable; success and version are those of the last, forwarded or led; a retryable last one means the attempts are used up or the context has ended. |
| `ClusterSafety.StepKeepsInv` | cluster/store_apply.go:36-78 | Every cluster step keeps the invariant that joins terms, barriers, locks, proposal phases and logs. |
| `ClusterSafety.RunKeepsInv` | cluster/store_apply.go:36-78 | It holds at every point of every run. |
| `ClusterSafety.CommittedLogIsGood` | cluster/store_apply.go:36-78 | Every committed command passed the checks on a prefix that holds all earlier terms' entries and, with a cap, all earlier additions to its class. |
| `ClusterSafety.JudgedAfterInheritance` | cluster/store.go:1058-1092 | A judgement in the confirmed term sees every inherited entry. |
| `ClusterSafety.BarrierStampsRise` | cluster/store.go:1058-1092 | After a stamp, every barrier started since has read a later term. |
| `ClusterSafety.OneBarrierPerTerm` | cluster/store.go:1058-1092 | Successful barriers on a running node stamp strictly increasing terms. |
| `ClusterSafety.CrashForgetsConfirmation` | cluster/store.go:1058-1092 | A node that crashed confirms no proposal from memory before a barrier of its own succeeds. |
| `ClusterSafety.NoCallIsStranded` | cluster/store_apply.go:36-78 | At every point of every run a call before its gate can go on, runs its own barrier, or waits for another call in progress on its node that holds the lock of its class or the barrier; a later call may return, an appended one exactly once it is applied or its leadership is over. |
| `LogSafety.AdditionStaysWithinCap` | cluster/store_apply.go:36-78 | An addition no definition overtook keeps the cap, across proposers and leader changes. |
| `LogSafety.SinceDefinition` | cluster/schema/schema.go:629-646 | While nothing is added a class has the tenants its definition laid down less those deleted since. |
| `LogSafety.UnaccountedArrives` | cluster/schema/manager.go:381-405 | What an unchecked entry leaves a class with is read off the definition, the deletions since and the names it adds. |
| `LogSafety.TenantCapIff` | cluster/schema/manager.go:381-405 | The cap on multi-tenant classes holds of every prefix of a good log if and only if what the unchecked commands bring fits. |
| `LogSafety.TenantCapOverRuns` | cluster/store_apply.go:36-78 | The same at every point of every run of a cluster. |
| `LogSafety.CollisionIsRace` | cluster/schema/manager.go:348-408 | In every good log two classes whose names differ only in case meet only if the first was created after the second was judged. |
| `LogSafety.AliasCollisionIsRace` | cluster/schema/manager.go:348-379 | A class is created beside an alias of its name, up to case, only if the alias was pointed after the class was judged. |
| `LogSafety.JudgedWhileActive` | cluster/store_apply.go:90-230 | In every good log a command judged by a namespace that is no deletion was judged while the namespace was active. |
| `LogSafety.GrowsWhereActive` | cluster/store_apply.go:137-145 | A namespaced class or a shard of one appears only by a command judged while the namespace was active, except by an update that carries a sharding state. |
| `LogSafety.GrowsWhereActiveOverRuns` | cluster/store_apply.go:36-78 | The same at every point of every run of a cluster. |
| `RaceWitness.BothLand` | cluster/store_apply.go:36-78 | Any two commands that pass while nothing exists, of which the first takes no lock, can be judged together and committed one after the other in a run of a cluster. |
| `RaceWitness.RunExceedsCap` | cluster/schema/schema.go:629-646 | A run of a cluster that commits a tenant over cap 0: class and addition are both judged before the class exists. |
| `RaceWitness.RunCommitsBothSpellings` | cluster/schema/manager.go:366-379 | A run of a cluster that commits two classes whose names differ only in case. |
| `RaceWitness.StaleJudgementBreaksCap` | cluster/store.go:1058-1092 | Concrete log: an append outside the confirmed term exceeds the cap. |
| `LogSafety.DeletingPersists` | usecases/namespaces/controller.go:104-127 | Deleting is left only by removal. |
| `LogSafety.RemovalNeedsEmpty` | cluster/namespaces/namespaces.go:134-148 | Removal needs a namespace without classes and aliases. |
| `LogSafety.LaterTermsAreDrained` | cluster/store.go:1058-1092 | A command of a later term than the flip was judged after the flip. |
| `LogSafety.DeletingOnlyEmpties` | cluster/store_apply.go:90-230 | Once earlier-judged commands are through, the classes and aliases of a deleting namespace never grow. |
| `LogSafety.DeletingOnlyEmptiesOverRuns` | cluster/store_apply.go:90-230 | The same over whole runs, also right after a change of term. |
| `NamespaceFlip.ChangeIndexInRange` | usecases/namespaces/controller.go:175-204 | The stored index is never the 0 that would drop the precondition. |
| `NamespaceFlip.IndexDetectsMoves` | usecases/namespaces/controller.go:253-283 | The index is unchanged if and only if nothing moved the namespace. |
| `NamespaceFlip.ConditionalFlipTakesIff` | cluster/raft_namespace_apply_endpoints.go:92-143 | A conditional flip takes effect if and only if nothing moved the namespace since the read, the target is another state, and the state read was not deleting, nor active with resuming as target; then the namespace is in that state at that index. |
| `NamespaceFlip.FlipIsProposedIff` | cluster/raft_namespace_apply_endpoints.go:92-143 | A conditional flip is proposed exactly if the namespace is there when its index is read. |
| `NamespaceFlip.DeletingIsReachable` | usecases/namespaces/controller.go:104-127 | From every state but deleting an unmoved flip to deleting takes effect, and from deleting none does. |
| `NamespaceFlip.SuspendResumeCycle` | usecases/namespaces/controller.go:104-127 | Concrete log: the life of a namespace flip by flip, with the two that are refused. |
| `NamespaceFlip.ConditionalFlipAtMostOnce` | cluster/raft_namespace_apply_endpoints.go:92-143 | However often it is proposed, it takes effect at most once. |
| `NamespaceFlip.UnconditionalRetryReverts` | cluster/raft_namespace_apply_endpoints.go:97-101 | Concrete log: without the index a retry undoes what landed in between. |
| `HomeNode.LeByFirstDifference` | cluster/raft_namespace_apply_endpoints.go:177-178 | Names are ordered by the first place where they differ, and a prefix comes first. |
| `HomeNode.SortNormalizes` | cluster/raft_namespace_apply_endpoints.go:177-178 | The cache key does not depend on the order of the candidates. |
| `HomeNode.Allocator.NextHomeNode` | cluster/raft_namespace_apply_endpoints.go:172-192 | The pick is a current candidate; rotation goes on while the set is the cached one and restarts otherwise. |
| `HomeNode.PicksGoRound` | usecases/cluster/iterator.go:65-73 | A run of calls over one candidate set walks the sorted names in a circle. |
| `HomeNode.HomeNodesAreFair` | cluster/raft_namespace_apply_endpoints.go:165-192 | In any k*n consecutive calls over permutations of n names, each name is returned k times. |
| `Rebalance.ReplicaCandidates` | cluster/raft_cluster_endpoints.go:261-278 | All storage candidates for a class without namespace, the home node alone for a namespaced one, and when there is an answer at all. |
| `Rebalance.Schema.AddReplica` | usecases/sharding/state.go:155-168 | The addition appends the node unless it is there or the call is not applied; success means it was appended, an error may hide that it was. |
| `Rebalance.Schema.DeleteReplica` | usecases/sharding/state.go:170-193 | The deletion is refused at or below the sharding factor; an error may hide that it was applied. |
| `Rebalance.Schema.AddReplacementReplicas` | cluster/raft_cluster_endpoints.go:225-256 | In any world only eligible candidates are added, some of them on failure; with a current read and success exactly the first ones up to one above the factor. |
| `Rebalance.Schema.ProcessShard` | cluster/raft_cluster_endpoints.go:167-220 | Whatever calls and reads do: only eligible nodes come, only the departed one goes, a deletion leaves at least max(1, RF-1); the exact outcome with current reads. |
| `Rebalance.DepartedNodeGoesIff` | cluster/raft_cluster_endpoints.go:167-256 | The departed node goes if and only if replicas or eligible nodes suffice, and then at least RF replicas remain; exactly when the rebalance fails. |
| `Rebalance.SettledIsAllowed` | cluster/raft_cluster_endpoints.go:225-278 | Only eligible nodes are added, only the departed one removed, never the last. |
| `Rebalance.ProgressStep` | cluster/raft_cluster_endpoints.go:120-164 | Dealing with one more shard keeps the account of settled, failed and untouched shards. |
| `Rebalance.Schema.SelectShards` | cluster/raft_cluster_endpoints.go:132-148 | Only shards the departed node holds are taken up; all of them if the class is read and the read is current, none if it fails. |
| `Rebalance.Schema.RebalanceClass` | cluster/raft_cluster_endpoints.go:130-161 | One class, any order of shards, any world, up to the first failure. |
| `Rebalance.Schema.RebalanceAfterNodeRemoval` | cluster/raft_cluster_endpoints.go:120-164 | In any world every shard changes soundly, shards the departed node does not hold are unchanged, at most one shard is left partly done; with classes read and reads current, success means all have been dealt with. |
| `Rebalance.RebalanceSucceedsIff` | cluster/raft_cluster_endpoints.go:120-164 | With reliable calls and current reads: success if and only if no shard is stuck, and each shard has settled or is untouched. |
| `Rebalance.DepartureOutcome` | cluster/raft_cluster_endpoints.go:167-278 | In a rebalance with current reads a shard loses the departed node if and only if its replicas and the nodes its class may use exceed the factor, counted over the storage nodes and the home node. |
| `Rebalance.RebalanceFailsIff` | cluster/raft_cluster_endpoints.go:120-220 | With reliable calls too, it fails if and only if some shard falls short of that by exactly one at a factor of two or more. |
| `ScalePlan.ValidateShard` | cluster/raft_replication_apply_endpoints.go:42-62 | The usage-counting loop accepts exactly the acceptable actions, for every iteration order. |
| `ScalePlan.Validate` | cluster/raft_replication_apply_endpoints.go:41-63 | Accepts exactly the plans without a self-source, a node both added and removed, or a removed node sourcing two additions. |
| `ScalePlan.AcceptableIff` | cluster/raft_replication_apply_endpoints.go:41-63 | A plan is accepted exactly if no transfer goes from a node to itself, no node is added and removed, and no two transfers move the same replica. |
| `ScalePlan.Ongoing` | cluster/raft_replication_apply_endpoints.go:35-39 | The loop finds an operation that is neither ready nor cancelled exactly when there is one. |
| `ScalePlan.MoveSourcesDistinct` | cluster/raft_replication_apply_endpoints.go:96-103 | In an accepted plan the moves of a shard have pairwise distinct sources. |
| `ScalePlan.Raft.ReplicateReplica` | cluster/raft_replication_apply_endpoints.go:123-151 | A submission is validated against the local schema, and an error may hide an applied operation. |
| `ScalePlan.Raft.SubmitAdditions` | cluster/raft_replication_apply_endpoints.go:86-117 | One operation per addition with a source, the others become empty replicas, up to the first failure; when they go through and what going through needs. |
| `ScalePlan.Raft.Rollback` | cluster/raft_replication_apply_endpoints.go:65-76 | One force-delete per id, in order, its errors ignored: exactly the ids whose force-delete was applied are gone. |
| `ScalePlan.Raft.RemoveReplicas` | cluster/raft_replication_apply_endpoints.go:79-85 | Success removes exactly these nodes; with reliable calls it is certain when the factor cannot be reached early, and it needs the factor to be left. |
| `ScalePlan.Raft.ApplyReplicationScalePlan` | cluster/raft_replication_apply_endpoints.go:29-121 | Success: exactly the wanted operations, one id each, and the planned holders. It is certain for a plan that fits if nothing goes wrong at the calls made, and with current reads needs a plan that is possible. Failure anywhere: no id, every acknowledged operation is sent a force-delete, and what stays registered is exactly those whose force-delete was not applied and the failed submission that was applied. |
| `ScalePlan.NothingStaysIff` | cluster/raft_replication_apply_endpoints.go:65-76 | A failed plan leaves nothing behind if and only if every force-delete was applied and the failing submission was not. |
| `ScalePlan.TwoStayBehind` | cluster/raft_replication_apply_endpoints.go:65-76 | A concrete world and plan after which two operations stay registered. |
| `ScalePlan.FitsIffPossible` | cluster/raft_replication_apply_endpoints.go:79-117 | Where the order of the actions cannot matter, the two conditions are one: such a plan succeeds if and only if it fits. |
| `CompareRoots.CountDigests` | adapters/clients/replication_grpc.go:517-520 | The total does not depend on map order. |
| `CompareRoots.Session.FillDigests` | adapters/clients/replication_grpc.go:531-535 | The overwritten slots say exactly the class's roots; the slots before keep their content. |
| `CompareRoots.Session.Fill` | adapters/clients/replication_grpc.go:506-542 | Whatever earlier calls left in the pools, the request denotes exactly the given map and shares no digest object. |
| `CompareRoots.NothingMissing` | adapters/clients/replication_grpc.go:514-542 | A request that denotes a map misses no class and no shard of it. |
| `Digests.TimeRoundTrip` | usecases/replica/repair_digests_codec.go:33-69 | Big-endian two's complement is a bijection between int64 and eight bytes. |
| `Digests.ByteOfWeight` | usecases/replica/repair_digests_codec.go:33-46 | Byte i of n is the digit of that weight, the most significant first. |
| `Digests.RecordLayout` | usecases/replica/repair_digests_codec.go:30-46 | What each byte of a record is. |
| `Digests.CompareRoundTrip` | usecases/replica/repair_digests_codec.go:30-69 | Decoding an encoded list of digests gives it back. |
| `Digests.DecodeEncode` | adapters/clients/replication.go:184-221 | The same for both record lengths, up to the flag that range records do not carry. |
| `Digests.EncodeDecode` | usecases/replica/repair_digests_codec.go:48-69 | Encoding what was decoded gives the payload back up to unused flag bits. |
| `Digests.DecodeFailsIff` | usecases/replica/repair_digests_codec.go:50-54 | Decoding fails exactly when the length is not a multiple of the record size. |
| `Digests.ToBinary` | usecases/replica/repair_digests_codec.go:33-46 | The loop over a reused buffer computes the encoding. |
| `Digests.FromBinary` | usecases/replica/repair_digests_codec.go:50-69 | The loop over slices computes the decoding. |
| `Digests.ReadRecords` | adapters/clients/replication.go:184-295 | Both stream readers return the decoding of the whole body, independent of the declared length, which only pre-sizes: to as many whole records as it covers, up to the request's bound. |
| `CompareDigests.ParseCanonicalIff` | adapters/clients/replication_grpc.go:876-890 | The 36-character form parses to an id if and only if it is the formatted id up to the case of hex digits (section 3 of RFC 4122). |
| `CompareDigests.ParseIff` | adapters/clients/replication_grpc.go:876-890 | Text parses to an id if and only if one of its four forms, plain, URN, braced or without dashes, spells the formatted id up to case. |
| `CompareDigests.ParseForms` | adapters/clients/replication_grpc.go:876-890 | Every id parses from each of its four written forms, whatever the case of its digits and whatever stands in place of the braces, and only text of 32, 36, 38 or 45 characters parses. |
| `CompareDigests.IdRoundTrip` | adapters/clients/replication_grpc.go:861-890 | Parsing a formatted id gives it back. |
| `CompareDigests.FormatShape` | adapters/clients/replication_grpc.go:861-873 | The text form is five groups of hex digits with hyphens between them (section 3 of RFC 4122). |
| `CompareDigests.RecordsRoundTrip` | adapters/clients/replication_grpc.go:861-890 | Digests survive the proto dialect. |
| `CompareDigests.RepairDigestsToProto` | adapters/clients/replication_grpc.go:863-873 | The loop converts each digest in place. |
| `CompareDigests.ProtoToRepairDigests` | adapters/clients/replication_grpc.go:876-890 | Fails exactly when some id does not parse, else converts each record. |
| `CompareDigests.ReplyRejectedIff` | adapters/clients/replication_grpc.go:439-467 | When a reply is rejected, exactly; unknown encodings always are. |
| `CompareDigests.NewPeerAnswers` | adapters/handlers/rest/clusterapi/grpc/replication_service.go:214-247 | A new peer's answer is its comparison of what was sent, except over the body limit or with more findings than digests. |
| `CompareDigests.OldClientIsServed` | adapters/handlers/rest/clusterapi/grpc/replication_service.go:214-247 | A new server answers a client that predates packing as an old server would, with the comparison of what was sent, in records. |
| `CompareDigests.SecondCallAnswers` | adapters/clients/replication_grpc.go:418-433 | What the resend is answered with, by a peer of either age. |
| `CompareDigests.OldPeerAnswers` | adapters/clients/replication_grpc.go:418-433 | Once an old peer's empty first comparison succeeds, the answer is that of whichever peer, old or new, receives the resend. |
| `CompareDigests.CompliantPeerIsHeard` | adapters/clients/replication_grpc.go:394-437 | The size bound never rejects a compliant peer of either age, also when it changes age between the two requests. |

## Left out

- Metadata-only voters, single-node recovery, the legacy snapshot format and the legacy schema migration.
- Case folding of names beyond ASCII letters.
- Creating an alias that is spelled like one of two classes whose names differ only in case depends on map order in the code; here it is refused.
- Errors of decoding a command or a snapshot; the code panics or refuses, and the entry is then no command of this model.
- Failures while removing an orphan's files (the code records the orphan again), and the guard that leaves a directory without a shard store in place.
- Store.Store.UpdateStore: leaves out the store halves of replica commands and tenant offloading, because they need placement by node and the state of a cloud transfer, which the directories here do not carry.
- Shards of a namespace that is suspended, resuming or deleting are closed and reopened by a sweep outside the log; here a namespace keeps its shards open.
- Store.Store.Dispatch: leaves out I/O failures of a store half, after which the code reports an error and keeps the schema change, and a crash in the middle of one.
- Whether there is a directory to move staged files onto is judged by its shard directories.
- Restart.LoadAgreesIff: speaks of processes that moved no staged files before loading; Restart.LoadSettlesIff has no such limit and speaks of the directories just before loading instead.
- The migration of a missing replication factor in the sharding state before replicas are added or deleted.
- Namespace removal also refuses while users or RBAC rows remain; here that belongs to the managers' arbitrary refusals.
- Forwarding a command to a remote leader is one outcome of an attempt, not a second node running `Execute`.
- Changes to the schema by others while a rebalance or a scale plan runs, except through lagging reads.
- Store.Store.Open: is one step, so a reader that polls while raft is being constructed is not modelled.
- ScalePlan.Raft.ApplyReplicationScalePlan: does not undo removed or added replicas on failure, because the code does not.
- Uniqueness of random operation ids is taken for granted: ids come from a counter.
- HTTP and gRPC transport, timeouts, compression, metrics, logging, and the generated clients: no behaviour beyond I/O.
