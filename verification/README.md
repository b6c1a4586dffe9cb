# Blockhost, modelled and verified

Blockhost is a control plane for hosted game servers.  This project models the parts of it that
carry their own logic, in Dafny, and proves what they keep:

- **Ports** (`port_allocation`, `port_capacity`, `server_registry`): first fit of Bedrock pairs and
  Java ports per node, over runs of creates, starts with failover, software switches, migrations and
  deletes.
- **Backup and restore** (`file_tree`, `world_archive`, `disk`, `world_restore`, `restore_leftover`,
  `world_roundtrip`, `level_restore`, `backup_artifacts`, `backup_interleaving`, `job_exclusion`): a
  restore over a file system whose operations may fail at any point, the round trip of a world
  through an archive, the artifact with its checksum file, retention, and jobs, retentions and
  deletions as they interleave.
- **Texts and packets** (`text`, `utf8`, `server_properties`, `property_laws`, `property_records`,
  `bedrock_pong`, `java_ping`, `rcon_client`): the properties editor, the pong rewriter, VarInt and
  the RCON framing.
- **Migration and routing** (`server_migration`, `node_router`): the copy, restore and purge protocol
  with failing calls, and the cache of runtimes.
- **Rows** (`paddle_webhook`, `deployment_revisions`): subscriptions under webhook events, and the
  active revision of a deployment.

Where the code does not do what it seems meant to do, the exact condition is proved:

- a Bedrock world saved from a level folder is restored one level too deep, and is not found when
  the level was renamed meanwhile (`BedrockRoundTripIff`, `PerLevelTooDeep`, `LevelIsLost`);
- a backup whose handler cannot restart the server stays active for good and shuts every restore of
  its server out (`HandleFailure`, `JobsAreAbandoned`, `AbandonedBlocksForEver`);
- a restore that raises after its completing commit, with rollback enabled and part of the old world
  left over, sets the restored world aside and reports a rollback to that part, unless an operation
  of its handler fails (`LateRollsBackIff`, `LateRollbackHappens`);
- a restore that rolls back keeps the configuration files it had copied (`ConfigDiffersIff`);
- the documentation asks for one active backup or restore job per server
  (`docs/backup_restore_architecture.md:252`); a server has one throughout exactly if no job is created
  beside an active one, which concurrent requests may do (`OneActiveIff`, `RestoresOverlap`);
- a retention or deletion that fails half way leaves completed rows without their archive
  (`RetentionSoundIff`, `RolledBackRetentionSoundIff`, `DeleteBackup`);
- a property whose value holds a line break is misread (`SetThenRead`);
- a truncated RCON packet is accepted with a cut payload (`ReceiveTruncated`);
- the VarInt writer of the Java ping never stops on a negative number (`WriterStopsIff`);
- a migration goes on when the server could not be stopped, and purging the source may then lose what
  was played meanwhile (`GoodKeepsWorldIff`, `PurgeLosesWorld`);
- a migration whose start goes to a third node purges the source all the same (`GoodNamesHolderIff`,
  `ThirdNodeHasNoWorld`);
- a late cancellation of an old subscription cancels the one that replaced it (`TakesOverIff`,
  `LateCancellation`);
- a build that is overtaken by a push leaves two active revisions (`RunKeepsLatestIff`).

## Assumptions

- Port probes answer from a set of busy ports given per call; allocating and storing a port is one
  step, under the advisory lock; the Bedrock and Java ranges are fixed and disjoint, and the runtime
  returns the port it was given.
- Each request, cache lookup and webhook is atomic, and database commits succeed unless a unique key
  refuses them.  Restore steps and removals of files may fail anywhere.
- World names are one ordinary path component, the files a restore copies over are files or free
  names, job ids are 36 characters long and used once, and nothing but the job writes below its
  server folder while it runs.
- An archive is a list of named entries; the digest is any function to 64 hexadecimal digits.
- Nodes have disks of their own; a successful call to an agent means a complete copy, and a failed one
  may have taken effect.
- Sessions do not write an attribute back that is set to the value they loaded, and lose loaded values
  at a commit.

## Model

| member | source | states |
|---|---|---|
| `PortAllocation.PickFreeUdpPort` | src/blockhost_backend/minecraft/port_alloc.py:50-70 | the lowest port whose pair is free and wholly in the range, or none exactly when every pair is used, busy or cut off |
| `PortAllocation.PickFreeTcpPort` | src/blockhost_backend/minecraft/port_alloc.py:81-91 | the lowest free single port of the range, or none exactly when all are used or busy |
| `PortAllocation.CollectReservedPorts` | src/blockhost_backend/api/servers.py:520-541 | the reserved set is every port of every footprint in scope, clipped to the range |
| `PortAllocation.ValidateServerPortPairs` | src/blockhost_backend/api/servers.py:544-587 | it passes exactly when the footprints of the scope are pairwise disjoint and no Bedrock port is the end of the range |
| `PortAllocation.SharedIffOverlapping` | src/blockhost_backend/api/servers.py:556-587 | with no pair past the end, some port has two owners exactly when two footprints meet |
| `PortAllocation.AllocatePort` | src/blockhost_backend/api/servers.py:590-605 | it fails exactly when the scope does not validate or no place in the range fits, and otherwise returns the lowest place that fits |
| `PortCapacity.PigeonholeBound` | src/blockhost_backend/minecraft/port_alloc.py:54-70 | without any alignment, a pair is found whenever 3 times the pairs plus 2 times the singles plus 2 times the busy ports is below end - start |
| `PortCapacity.ReservedSize` | src/blockhost_backend/api/servers.py:520-587 | a scope that validates reserves two ports for each Bedrock server and one for each other |
| `ServerRegistry.NodeValidates` | src/blockhost_backend/api/servers.py:544-587 | under the invariant the rows of one node always pass the validation |
| `ServerRegistry.AllocatedRowFits` | src/blockhost_backend/api/servers.py:590-605 | an allocated port lies in its range and collides with no server of the node |
| `ServerRegistry.StepKeepsInv` | src/blockhost_backend/api/servers.py:1148-1190 | every create, failover, software switch and delete keeps the ports of each node pairwise disjoint, for any answers of the port probes |
| `ServerRegistry.RunKeepsInv` | src/blockhost_backend/api/servers.py:590-605 | the same over every run without migrations |
| `ServerRegistry.FirstFitIsEven` | src/blockhost_backend/minecraft/port_alloc.py:54-70 | if pairs sit on even offsets and the busy ports of the range come in pairs, first fit chooses an even offset |
| `ServerRegistry.StepKeepsAligned` | src/blockhost_backend/minecraft/port_alloc.py:54-70 | if the busy ports of the Bedrock range come in pairs, every event keeps all Bedrock servers on even offsets, detached ones included; Java ports may be busy in any way |
| `ServerRegistry.RunKeepsAligned` | src/blockhost_backend/api/servers_migration.py:144-148 | over every run whose busy Bedrock ports come in pairs, migrations included, alignment and disjointness hold together |
| `ServerRegistry.MigrationSafeIff` | src/blockhost_backend/database/schema.py:310-312 | a migration that the unique key admits keeps ports disjoint exactly when no Bedrock server of the target sits one port beside the carried one |
| `ServerRegistry.MigrationKeepsInv` | src/blockhost_backend/api/servers_migration.py:144-148 | on even offsets the unique key (node_id, vm_port) alone makes a migration safe |
| `ServerRegistry.LoneBusyPortBreaksMigration` | src/blockhost_backend/minecraft/port_alloc.py:54-70 | one lone busy even port is enough to lose it: a concrete run ends with two servers of a node sharing a port |
| `ServerRegistry.AllocationFailsIff` | src/blockhost_backend/minecraft/port_alloc.py:50-70 | the range never fragments: allocation on a node fails exactly when every whole pair is held or busy |
| `ServerRegistry.NodeHoldsEveryPair` | src/blockhost_backend/minecraft/port_alloc.py:50-70 | with no busy port a node takes floor(N / 2) Bedrock servers before it refuses one |
| `ServerRegistry.Registry.AllocateProxyPort` | src/blockhost_backend/api/servers.py:608-644 | none exactly when proxies are off; a returned port is in the range, no server has it, and some server has each lower one; an error exactly when every port of the range is taken |
| `ServerRegistry.Registry.CreateServer` | src/blockhost_backend/api/servers.py:805-830 | a server is created, with the allocated port and proxy port, exactly if both exist and the unique key admits the port; this is the create event of the model |
| `ServerRegistry.Registry.StartServer` | src/blockhost_backend/api/servers.py:1148-1190 | a server that needs a node gets the one found and a newly allocated port, or is left without one exactly when allocation or the unique key refuses; this is a detach and an assignment of the model |
| `ServerRegistry.Registry.SwitchSoftware` | src/blockhost_backend/api/servers.py:1013-1072 | switching across platforms is refused; otherwise only the software changes |
| `ServerRegistry.Registry.ReassignNode` | src/blockhost_backend/api/servers_migration.py:144-148 | the reassignment of a migration carries the port and is refused by the unique key |
| `ServerRegistry.Registry.DeleteServer` | src/blockhost_backend/api/servers.py:1294-1335 | deleting removes the row |
| `WorldArchive.AddToTar` | src/blockhost_backend/orchestrator/backup.py:240-268 | packing adds the source and everything below it that is no link, each under its relative name, and nothing else |
| `WorldArchive.BuildArchive` | src/blockhost_backend/orchestrator/backup.py:547-550 | the archive holds the members of every included path and no other |
| `WorldArchive.PresentFiles` | src/blockhost_backend/orchestrator/backup.py:160-170 | the configuration files collected are the listed ones that exist as files |
| `WorldArchive.ValidateArchiveMembers` | src/blockhost_backend/orchestrator/backup.py:636-656 | accepts exactly the archives with safe names, no links and a world entry |
| `WorldArchive.SafeDestination` | src/blockhost_backend/orchestrator/backup.py:659-670 | a safe name resolves below the target, where its own components say |
| `WorldArchive.UnpackedAt` | src/blockhost_backend/orchestrator/backup.py:659-670 | unpacking creates the members and the folders above them, nothing else |
| `WorldArchive.UnpackedMember` | src/blockhost_backend/orchestrator/backup.py:659-670 | every member of a consistent archive arrives with its own entry |
| `WorldArchive.UnpackedNeverClashes` | src/blockhost_backend/orchestrator/backup.py:659-670 | unpacking a consistent archive never meets an entry of the other kind |
| `FileTree.RenameMoves` | src/blockhost_backend/orchestrator/backup.py:749-752 | a rename moves one subtree whole and touches nothing else |
| `DiskOps.Disk.Replace` | src/blockhost_backend/orchestrator/backup.py:749-755 | renaming happens as a whole or not at all, and every state is recorded |
| `DiskOps.Disk.RemoveTree` | src/blockhost_backend/orchestrator/backup.py:353-360 | a removal may stop half way but touches only the tree and its empty parent |
| `DiskOps.Disk.CopyFile` | src/blockhost_backend/orchestrator/backup.py:772-774 | copying replaces one file or changes nothing |
| `WorldRestore.ExtractSafely` | src/blockhost_backend/orchestrator/backup.py:659-670 | after extraction the target holds exactly what the archive unpacks to |
| `WorldRestore.Prepare` | src/blockhost_backend/orchestrator/backup.py:707-748 | up to the swap only the runtime folder of the server changes |
| `WorldRestore.SwapWorlds` | src/blockhost_backend/orchestrator/backup.py:749-756 | at every moment of the two renames the original world is whole in place or at the rollback path; after them the saved one is in place; a second rename that fails is taken back, with the original in place again unless taking it back fails too |
| `WorldRestore.CopyConfigs` | src/blockhost_backend/orchestrator/backup.py:758-774 | only the listed configuration files change, each to its unpacked contents |
| `WorldRestore.RollBack` | src/blockhost_backend/orchestrator/backup.py:796-804 | if the renames of the handler succeed the original world is in place again |
| `WorldRestore.HandlerOutcome` | src/blockhost_backend/orchestrator/backup.py:791-813 | wherever the attempt left the original world, the handler leaves it whole, and in place if it reports a rollback |
| `WorldRestore.HandleFailure` | src/blockhost_backend/orchestrator/backup.py:791-819 | the handler ends in rolled_back or failed and keeps the original world whole at one of the two paths |
| `WorldRestore.RunRestoreJob` | src/blockhost_backend/orchestrator/backup.py:673-831 | for every failing step: until the completing commit the original world is whole in place or at the rollback path; an unsuccessful job with rollback enabled, no failing operation in its handler and no dangling link at the failed path has it in place; a completed job installed the archive's world and files; a job that raises after that commit ends as LateOutcome says, and when its handler meets no failure it reports a rollback exactly if rollback is enabled, part of the old world was left over and no dangling link is in the way; nothing is left over when removing the old world did not fail; however the job ends, nothing else changes outside the runtime folder but the configuration files the copy got to; when no commit, call or disk operation fails, the job completes exactly if the archive is safe, unpacks without a clash and has a world folder, nothing is in the way of the job's folders, and no dangling link is where the world goes; a completed job committed every phase in the order of the source and left the server running exactly if a restart was asked for, any other committed a beginning of them and perhaps the status it ended in, and leaves a server that ran running unless a call or commit of its handler failed |
| `WorldRestore.LateHandler` | src/blockhost_backend/orchestrator/backup.py:786-813 | a job that raised after its completing commit keeps the restored world in place unless rollback is enabled and part of the old world was left over; then the restored world is whole at the failed path when the handler reports a rollback, which is to the leftover, and at the active or the failed path when the handler fails |
| `WorldRestore.LateRollsBackIff` | src/blockhost_backend/orchestrator/backup.py:796-813 | when no operation of that handler fails, it reports a rollback exactly if rollback is enabled, part of the old world was left over and no dangling link is at the failed path |
| `RestoreLeftover.LateRollbackHappens` | src/blockhost_backend/orchestrator/backup.py:788-804 | a small server: the handler finds the empty folder of the old world, moves the restored world aside and reports a rollback to that empty folder |
| `WorldRestore.FramedAt` | src/blockhost_backend/orchestrator/backup.py:758-774 | whatever path a job left different, outside its own paths, is a configuration file the archive has and the copy got to, with the archive's contents |
| `WorldRestore.ConfigDiffersIff` | src/blockhost_backend/orchestrator/backup.py:758-774 | a configuration file differs after a job, rolled back or not, exactly if the copy got to it, the archive has it, and with other contents |
| `WorldRestore.RestoredActive` | src/blockhost_backend/orchestrator/backup.py:749-774 | in the restored server the active path holds the archive's world |
| `WorldRoundTrip.JavaActive` | src/blockhost_backend/orchestrator/backup.py:136-150 | a Java world is the named folder, else "world", else none |
| `WorldRoundTrip.BedrockResolve` | src/blockhost_backend/orchestrator/backup.py:136-150 | a Bedrock world is the named folder, else the level below "worlds", else "worlds", else none |
| `WorldRoundTrip.BackupIsSafeIff` | src/blockhost_backend/orchestrator/backup.py:636-656 | a restore accepts the members of a backup exactly when the server had a world |
| `WorldRoundTrip.BackupHasWorldIff` | src/blockhost_backend/orchestrator/backup.py:636-738 | a restore can take a world from a backup exactly if the server had one and it was a folder, or it was a level with its own path |
| `WorldRoundTrip.UnpackedWorld` | src/blockhost_backend/orchestrator/backup.py:152-193 | the world directory of a backup unpacks to the saved world without its links |
| `WorldRoundTrip.UnpackedConfig` | src/blockhost_backend/orchestrator/backup.py:160-170 | a saved configuration file unpacks to itself, an absent one to nothing |
| `WorldRoundTrip.JavaRoundTrip` | src/blockhost_backend/orchestrator/backup.py:736-756 | for every Java server, backup and completed restore give back the saved world where the server looks for it, whatever its world names were and are |
| `WorldRoundTrip.ConfigRoundTrip` | src/blockhost_backend/orchestrator/backup.py:758-774 | every saved configuration file has its saved contents again, every other one is left alone, whatever the world names were and are |
| `WorldRoundTrip.PerLevelTooDeep` | src/blockhost_backend/orchestrator/backup.py:174-178 | in the Bedrock per-level layout the saved tree ends up one level too deep, under the level name of the time of the backup |
| `WorldRoundTrip.BedrockRoundTripIff` | src/blockhost_backend/orchestrator/backup.py:736-756 | a Bedrock restore gives back the saved world where the server looks for it exactly when the whole worlds folder was saved and the server does not now name a level inside it while worlds is active, or a level was saved, worlds is active and the level kept its name |
| `LevelRestore.LevelIsLost` | src/blockhost_backend/orchestrator/backup.py:174-178 | a small Bedrock server restored from its own backup finds a world without the level's files, which are one folder further down |
| `JobExclusion.StepKeepsInv` | src/blockhost_backend/orchestrator/backup.py:492-511 | no step lets a backup and a restore of one server both be past their guard, late handlers included, with neither having made its completing commit |
| `JobExclusion.GuardDecides` | src/blockhost_backend/orchestrator/backup.py:492-503 | the guard lets a job through exactly if its server has no active job of the other kind |
| `JobExclusion.StatusCommitted` | src/blockhost_backend/orchestrator/backup.py:505-626 | which status each commit of a job sets, and that no other step changes it |
| `JobExclusion.OnlyOwnJob` | src/blockhost_backend/orchestrator/backup.py:471-831 | a step touches its own job alone and never its server or kind; only a request creates a job |
| `JobExclusion.RunsExclude` | src/blockhost_backend/orchestrator/backup.py:689-706 | backup and restore exclude each other in every run, even when the lock admits everybody |
| `JobExclusion.LockedRunsOverlapOnlyInHandlers` | src/blockhost_backend/orchestrator/backup.py:791-819 | with a lock that excludes, two unfinished jobs of a server are past their guards only while one handles its failure |
| `JobExclusion.RestoresOverlap` | src/blockhost_backend/api/backups.py:481-504 | two restores created by racing requests overlap even under such a lock: a concrete run |
| `JobExclusion.LateHandlerOverlaps` | src/blockhost_backend/orchestrator/backup.py:786-831 | a restore that raises after its completing commit can be in its handler while a backup of the server works: a concrete run |
| `JobExclusion.StepOneActiveIff` | src/blockhost_backend/api/backups.py:481-504 | a step keeps one active job per server exactly unless it creates a job beside an active one |
| `JobExclusion.OneActiveIff` | src/blockhost_backend/api/backups.py:481-504 | in every run and for either kind of lock, each server has at most one active job throughout exactly if every job was created while its server had no active job of either kind |
| `JobExclusion.JobsAreAbandoned` | src/blockhost_backend/orchestrator/backup.py:602-608 | a concrete run ends in a job of either kind whose handler raised |
| `JobExclusion.AbandonedBlocksForEver` | src/blockhost_backend/orchestrator/backup.py:602-608 | a job whose handler raised shuts the other kind out of its server for good |
| `BackupArtifacts.Store.CommitLocalArtifact` | src/blockhost_backend/orchestrator/backup.py:420-431 | on success the temporary file became the archive and its digest the checksum file; on failure no other backup's files changed |
| `BackupArtifacts.CommittedPasses` | src/blockhost_backend/orchestrator/backup.py:370-417 | a committed artifact passes both verifications |
| `BackupArtifacts.PassesIffIntact` | src/blockhost_backend/orchestrator/backup.py:389-417 | a completed row passes on any files exactly if the archive has the recorded size and digest and the checksum file holds that digest |
| `BackupArtifacts.VerifyLocalIffIntact` | src/blockhost_backend/orchestrator/backup.py:370-386 | the same for the check a job makes of its own artifact |
| `BackupArtifacts.DamageIsFound` | src/blockhost_backend/orchestrator/backup.py:389-411 | a missing or empty archive, another size, other bytes of that size, a missing and a wrong checksum file are each found and told apart |
| `BackupArtifacts.UncheckedRow` | src/blockhost_backend/orchestrator/backup.py:389-413 | a row without checksum and size passes on no files, and its verification succeeds exactly on a non-empty archive, whose own size and digest it returns |
| `BackupArtifacts.FinishedPassesIff` | src/blockhost_backend/orchestrator/backup.py:559-597 | after a job completed with an archive, its row passes on any later files exactly if they still hold that archive's size and digest and the checksum file its digest |
| `BackupArtifacts.Store.WriteArchive` | src/blockhost_backend/orchestrator/backup.py:492-557 | up to the archive only the job's temporary file and status change |
| `BackupArtifacts.Store.CompleteBackup` | src/blockhost_backend/orchestrator/backup.py:559-586 | the completing commit is made with an artifact that verifies, or not at all |
| `BackupArtifacts.Store.HandleFailure` | src/blockhost_backend/orchestrator/backup.py:599-626 | the handler raises exactly when a stopped server cannot be restarted, and then commits nothing; otherwise it marks the backup failed |
| `BackupArtifacts.Store.CleanUp` | src/blockhost_backend/orchestrator/backup.py:627-633 | a job that did not complete leaves neither archive nor checksum file, unless an unlink fails |
| `BackupArtifacts.Store.RunBackupJob` | src/blockhost_backend/orchestrator/backup.py:471-633 | every completed row verifies afterwards exactly unless retention ran and the first stuck file in its order is the checksum file of another backup; a job that raised before its completing commit leaves no file of its own; when no step raises, the job completes exactly if the archive is not empty, and retention runs; a running server runs again afterwards unless the call to stop it raised or the handler did, and no other server is touched; the handler raises exactly when a stopped server cannot be restarted |
| `BackupArtifacts.Store.ApplyRetention` | src/blockhost_backend/orchestrator/backup.py:834-855 | removes and marks the candidates behind the newest ones, in order, up to the first file that cannot be removed, which it names |
| `BackupArtifacts.Store.SelectNewestFirst` | src/blockhost_backend/orchestrator/backup.py:837-846 | lists the completed, unpinned backups of the server newest first |
| `BackupArtifacts.FirstStuckIff` | src/blockhost_backend/orchestrator/backup.py:848-855 | retention meets no failing file exactly if none of its victims' files is stuck, and fails at the very first archive exactly if that one is |
| `BackupArtifacts.RetentionKeepsNewest` | src/blockhost_backend/orchestrator/backup.py:834-855 | the survivors are as many of the newest as may be kept; pinned ones and other servers are untouched |
| `BackupArtifacts.RetentionSettles` | src/blockhost_backend/orchestrator/backup.py:834-855 | applied again with the same count it removes nothing |
| `BackupArtifacts.KeepCount` | src/blockhost_backend/orchestrator/backup.py:836 | the schedule's count counts when it is set and not zero, else the default, raised to one |
| `BackupArtifacts.RetentionSoundIff` | src/blockhost_backend/orchestrator/backup.py:848-855 | when retention raises inside a job, every completed row verifies exactly if an archive could not be removed |
| `BackupArtifacts.RolledBackRetentionSoundIff` | src/blockhost_backend/api/backups.py:528-536 | when it raises inside a request, every completed row verifies exactly if the very first removal failed |
| `BackupArtifacts.Store.ApplyRetentionNow` | src/blockhost_backend/api/backups.py:528-536 | the endpoint marks all victims exactly if none of their files is stuck, else none; every completed row verifies afterwards exactly if none is stuck or the first archive is |
| `BackupArtifacts.Store.DeleteBackup` | src/blockhost_backend/api/backups.py:420-455 | refuses active and pinned backups; otherwise removes the files and marks the row exactly if no file is stuck and the folders can be tidied; every completed row verifies afterwards exactly if it was refused, the backup was not completed, its archive is stuck, or nothing fails |
| `BackupInterleaving.OwnVerificationPasses` | src/blockhost_backend/orchestrator/backup.py:559-575 | what a job verifies before its completing commit is what later verifications of its row repeat |
| `BackupInterleaving.StepKeepsInv` | src/blockhost_backend/orchestrator/backup.py:492-633 | every file operation and commit of any job, retention or deletion keeps completed rows exact and verified artifacts ready to be committed |
| `BackupInterleaving.RunIsExact` | src/blockhost_backend/orchestrator/backup.py:834-855 | at every commit boundary of every interleaving a completed row verifies exactly if no removal took a file of its artifact, and one that fails is a victim of a removal under way or ended without marking it |
| `BackupInterleaving.QuietRunIsSound` | src/blockhost_backend/api/backups.py:420-455 | with no removal under way and none ended early, every completed row verifies |
| `Text.StripUnique` | src/blockhost_backend/minecraft/bedrock_properties.py:78-83 | stripping finds the one trimmed text between two runs of white space |
| `Text.SplitJoin` | src/blockhost_backend/minecraft/bedrock_ping.py:159-169 | splitting a joined list gives the list back |
| `Text.JoinSplit` | src/blockhost_backend/minecraft/bedrock_ping.py:159-169 | joining the split parts gives the text back |
| `Text.DenotedDecimal` | src/blockhost_backend/minecraft/bedrock_properties.py:90-91 | printing a number and reading its digits gives the number |
| `Text.ParseShown` | src/blockhost_backend/minecraft/bedrock_ping.py:103-107 | int(str(n)) is n |
| `ServerProperties.UniversalLines` | src/blockhost_backend/minecraft/bedrock_properties.py:76 | newline translation neither hides nor adds a line break for splitlines |
| `ServerProperties.LinesAppend` | src/blockhost_backend/minecraft/bedrock_properties.py:134 | lines are independent of what follows a line feed |
| `PropertyLaws.CommentSaysNothing` | src/blockhost_backend/minecraft/bedrock_properties.py:76-79 | a line whose first character behind white space is # sets nothing |
| `PropertyLaws.NoEqualsSaysNothing` | src/blockhost_backend/minecraft/bedrock_properties.py:76-80 | a line without an equals sign sets nothing |
| `PropertyLaws.EntrySets` | src/blockhost_backend/minecraft/bedrock_properties.py:80-93 | a key and a value with white space around either set the coerced value under the key; a further equals sign belongs to the value |
| `PropertyLaws.LineEnds` | src/blockhost_backend/minecraft/bedrock_properties.py:76 | a line ends at its first line break, and a carriage return with a line feed is one break |
| `PropertyLaws.WrittenRead` | src/blockhost_backend/minecraft/bedrock_properties.py:107-124 | a value without a line break before its trailing white space is read as its coerced, stripped text |
| `PropertyLaws.WrittenMisread` | src/blockhost_backend/minecraft/bedrock_properties.py:107-124 | a value with one is always read as something else |
| `PropertyLaws.SetThenRead` | src/blockhost_backend/minecraft/bedrock_properties.py:70-135 | reading after setting gives the old properties with that one updated, exactly when the value has no line break before its trailing white space |
| `PropertyRecords.ValueSurvives` | src/blockhost_backend/minecraft/bedrock_properties.py:85-93 | exactly booleans, non-negative numbers and trimmed texts that look like neither are read as they were set |
| `PropertyRecords.SettersCommute` | src/blockhost_backend/minecraft/java_properties.py:32-70 | settings of different keys are read the same in either order |
| `PropertyRecords.LinesAfterSet` | src/blockhost_backend/minecraft/bedrock_properties.py:103-124 | comments, blank lines, other keys and the order of lines are kept; a missing key is added at the end |
| `PropertyRecords.LastSettingWins` | src/blockhost_backend/minecraft/java_properties.py:32-70 | the second of two settings of a key is all that is left, down to the characters |
| `PropertyRecords.PropertiesFile.Read` | src/blockhost_backend/minecraft/java_properties.py:122-146 | the loop computes the properties of the file, of a missing one none |
| `PropertyRecords.PropertiesFile.Set` | src/blockhost_backend/minecraft/java_properties.py:32-70 | the loop rewrites the file as specified and keeps the previous contents as the backup |
| `PropertyRecords.PropertiesFile.Write` | src/blockhost_backend/minecraft/bedrock_properties.py:27-67 | writing a record replaces the file by one line per field with a value and backs an existing one up |
| `PropertyRecords.RecordReadBack` | src/blockhost_backend/minecraft/bedrock_properties.py:21-94 | a written record, an empty one included, reads back as its fields, each key once, and nothing else |
| `PropertyRecords.BedrockReadBack` | src/blockhost_backend/minecraft/bedrock_properties.py:21-67 | each of the eleven Bedrock keys reads back as its own field of the record, the second port as the port plus one, a field without a value as no key, and there is no other key |
| `PropertyRecords.JavaReadBack` | src/blockhost_backend/minecraft/java_properties.py:73-119 | each of the twenty-one Java keys reads back as its own field of the record, and there is no other key |
| `Utf8.DecodeEncode` | src/blockhost_backend/minecraft/bedrock_ping.py:155 | decoding undoes encoding |
| `Utf8.EncodeDecode` | src/blockhost_backend/minecraft/bedrock_ping.py:155-169 | a strict decoding loses nothing: there is one encoding of each text |
| `BedrockPong.ParsePrinted` | src/blockhost_backend/minecraft/bedrock_ping.py:92-129 | a text printed from twelve parts parses to them, each field to its own, players online and maximum included |
| `BedrockPong.ParsedLength` | src/blockhost_backend/minecraft/bedrock_ping.py:118-129 | the further fields are present exactly as far as the text goes |
| `BedrockPong.RewriteCases` | src/blockhost_backend/minecraft/bedrock_ping.py:141-170 | a packet without readable text, with fewer than eleven parts or of another edition is passed on as it came, and every other one is rewritten |
| `BedrockPong.NoTextIff` | src/blockhost_backend/minecraft/bedrock_ping.py:141-154 | a packet has no text exactly if it is no pong, shorter than its header, or than its length field says |
| `BedrockPong.TooShortIsRaw` | src/blockhost_backend/minecraft/bedrock_ping.py:92-120 | a text is left unparsed exactly if it has fewer than six parts |
| `BedrockPong.ParseRewritten` | src/blockhost_backend/minecraft/bedrock_ping.py:92-170 | parsing the rewritten text gives the old fields with the advertised port in place of the ports it had |
| `BedrockPong.RewriteKeeps` | src/blockhost_backend/minecraft/bedrock_ping.py:141-170 | header and trailing bytes stay, the length field is exact and the packet stays readable |
| `BedrockPong.RewriteTwice` | src/blockhost_backend/minecraft/bedrock_ping.py:132-170 | rewriting twice is rewriting with the last port |
| `BedrockPong.RewriteFits` | src/blockhost_backend/minecraft/bedrock_ping.py:164-170 | with at most 65525 bytes of text and a port of at most five digits, packing never raises |
| `JavaPing.WriteVarInt` | src/blockhost_backend/minecraft/java_ping.py:21-31 | the loop writes the unsigned LEB128 form |
| `JavaPing.ShiftedIs` | src/blockhost_backend/minecraft/java_ping.py:21-31 | k shifts by seven bits divide by 128 to the k and round down, for negative values too |
| `JavaPing.WriterStopsIff` | src/blockhost_backend/minecraft/java_ping.py:21-31 | the writer stops exactly for non-negative values |
| `JavaPing.LebLength` | src/blockhost_backend/minecraft/java_ping.py:21-31 | k bytes are enough exactly below 128 to the k |
| `JavaPing.VarIntRoundTrip` | src/blockhost_backend/minecraft/java_ping.py:33-41 | the reader returns the written value exactly below 2 to the 35, and that value modulo 2 to the 35 otherwise, leaving what follows |
| `JavaPing.StreamReader.ReadVarIntHere` | src/blockhost_backend/minecraft/java_ping.py:33-41 | the loop reads what the specification reads and leaves the rest of the stream |
| `JavaPing.HandshakeRead` | src/blockhost_backend/minecraft/java_ping.py:43-62 | a server reads protocol, host, port and next state off the request and is left with the status request |
| `JavaPing.ReadResponse` | src/blockhost_backend/minecraft/java_ping.py:64-72 | the client takes the text of a response or fails |
| `JavaPing.ResponseRead` | src/blockhost_backend/minecraft/java_ping.py:64-72 | whatever packet length a response declares, its text is read exactly |
| `RconProtocol.WireLayout` | src/blockhost_backend/minecraft/rcon_client.py:50-55 | a packet is the number of bytes behind it, its id, its kind, the payload and two zero bytes |
| `RconProtocol.PackableIff` | src/blockhost_backend/minecraft/rcon_client.py:50-55 | packing raises exactly for numbers or lengths beyond 32 bits with sign |
| `RconProtocol.RconClient.ReadExact` | src/blockhost_backend/minecraft/rcon_client.py:73-80 | however the stream is cut into chunks, it returns the bytes asked for or all there are |
| `RconProtocol.RconClient.Send` | src/blockhost_backend/minecraft/rcon_client.py:50-55 | sends one packet, or nothing where packing raises |
| `RconProtocol.RconClient.Recv` | src/blockhost_backend/minecraft/rcon_client.py:57-71 | the packet received depends on the stream alone |
| `RconProtocol.ReceiveWire` | src/blockhost_backend/minecraft/rcon_client.py:50-71 | a packet with a payload of at most 4086 bytes is received as sent |
| `RconProtocol.ReceiveTooLong` | src/blockhost_backend/minecraft/rcon_client.py:64-65 | a longer one is refused |
| `RconProtocol.PacketsRoundTrip` | src/blockhost_backend/minecraft/rcon_client.py:50-80 | every sequence of sent packets is received as the same sequence |
| `RconProtocol.AnswerIsWhole` | src/blockhost_backend/minecraft/rcon_client.py:94-108 | a response split over several packets comes back whole and in order |
| `RconProtocol.RconClient.Command` | src/blockhost_backend/minecraft/rcon_client.py:82-108 | a command sends one packet and returns the payloads up to the end of the stream |
| `RconProtocol.ReceiveTruncated` | src/blockhost_backend/minecraft/rcon_client.py:67-80 | a stream cut inside a packet is received with a cut payload and no error from its twelfth byte on |
| `RconProtocol.TruncatedIntactIff` | src/blockhost_backend/minecraft/rcon_client.py:67-71 | such a packet is whole exactly when its payload is empty and only padding is missing |
| `ServerMigration.SelectNode` | src/blockhost_backend/api/servers_migration.py:117-135 | the first of the nodes with most free memory that fit, none exactly when none fits |
| `ServerMigration.GoodHasCopy` | src/blockhost_backend/api/servers_migration.py:96-194 | whether or not the server was stopped, at every moment a complete copy at least as new as the request is on the source, in S3 or on the target |
| `ServerMigration.GoodKeepsWorldIff` | src/blockhost_backend/api/servers_migration.py:96-194 | the newest world exists up to the start, and afterwards exactly if the source was not purged, the target has the newest copy or another node had it all along; always, if the server was stopped |
| `ServerMigration.PurgeLosesWorld` | src/blockhost_backend/api/servers_migration.py:96-194 | a trail of good moments in which the stop failed, the source was played on and then purged, and the newest world is gone |
| `ServerMigration.GoodNamesHolderIff` | src/blockhost_backend/api/servers_migration.py:144-168 | the row names a holder up to the reassignment and after a return; from the restore on exactly if the named node is the target with the newest copy, the unpurged source or a node that had it all along |
| `ServerMigration.ThirdNodeHasNoWorld` | src/blockhost_backend/api/servers.py:1151-1204 | a good moment of a stopped server whose row names a third node without the world |
| `ServerMigration.Migration.BackupToS3` | src/blockhost_backend/api/servers_migration.py:106-115 | a failed backup stops before anything was reassigned |
| `ServerMigration.Migration.Return` | src/blockhost_backend/api/servers_migration.py:159-164 | the row is given back unless its port was taken on the old node meanwhile |
| `ServerMigration.Migration.StartServer` | src/blockhost_backend/api/servers.py:1151-1204 | a start that finds the chosen node unfit names another one, or none: that fails in production only |
| `ServerMigration.Migration.Migrate` | src/blockhost_backend/api/servers_migration.py:96-194 | whichever call fails, the stop included, a complete copy exists at every moment and the source keeps the newest world up to the start; for a finished migration, exactly when the newest world exists and when the row names a holder; each outcome is tied to the calls that succeed and to whether a candidate fits, and the target is a chosen candidate |
| `NodeRouting.NodeRouter.GetRuntime` | src/blockhost_backend/orchestrator/node_router.py:47-71 | a live entry answers; otherwise the answer is the address and port of the node the server's row names, or the local runtime where there is none, and it is kept for ten seconds |
| `NodeRouting.NodeRouter.InvalidateServer` | src/blockhost_backend/orchestrator/node_router.py:73-74 | forgets one server |
| `NodeRouting.NodeRouter.InvalidateNode` | src/blockhost_backend/orchestrator/node_router.py:76-77 | forgets every server |
| `NodeRouting.FindIsPlacement` | src/blockhost_backend/orchestrator/node_router.py:42-71 | a server whose row names a known node is found there, every other one locally |
| `NodeRouting.EntriesAreJustified` | src/blockhost_backend/orchestrator/node_router.py:47-77 | every cache entry is what the database said when it was made, and its server was not invalidated since |
| `NodeRouting.LookupIsRecent` | src/blockhost_backend/orchestrator/node_router.py:47-77 | in every run a lookup returns what the database said less than ten seconds ago and not before the last invalidation |
| `NodeRouting.WaitedLookupIsNew` | src/blockhost_backend/orchestrator/node_router.py:47-71 | ten seconds after any commit no lookup goes by older rows, invalidated or not |
| `NodeRouting.InvalidatedLookupIsNew` | src/blockhost_backend/api/servers_migration.py:144-151 | after a commit and an invalidation no lookup goes by older rows |
| `PaddleWebhook.Webhook.FindRow` | src/blockhost_backend/api/billing.py:520-539 | finds the row with the subscription id, else a newest one of the resource, by resource or for game servers by server, else none |
| `PaddleWebhook.Webhook.Handle` | src/blockhost_backend/api/billing.py:468-587 | one event changes the rows as the step relation says |
| `PaddleWebhook.EventKeepsRows` | src/blockhost_backend/api/billing.py:541-587 | every event keeps subscription ids unique, gives no resource a second row, and queues one task exactly when a row is created or turns active |
| `PaddleWebhook.RunKeepsRows` | src/blockhost_backend/api/billing.py:468-587 | the same over every run |
| `PaddleWebhook.CanceledStops` | src/blockhost_backend/api/billing.py:546-559 | a cancellation, or an update with status canceled, cancels the row it finds, stops the resource and queues nothing |
| `PaddleWebhook.OthersActivate` | src/blockhost_backend/api/billing.py:560-587 | any other effective event activates the row it finds, or adds one where a plan exists, and stops nothing |
| `PaddleWebhook.RepeatsDoNothing` | src/blockhost_backend/api/billing.py:468-482 | only the first delivery of an event does anything |
| `PaddleWebhook.TakesOverIff` | src/blockhost_backend/api/billing.py:526-544 | an event rewrites the row of another subscription exactly when no row has its id and the newest row of its resource has a different one; of several newest rows, any may be found |
| `PaddleWebhook.LateCancellation` | src/blockhost_backend/api/billing.py:526-559 | three events: a subscription is replaced, and the late cancellation of the old one cancels the new one's row |
| `DeploymentRevisions.EventKeepsLatestIff` | src/blockhost_backend/api/deployments.py:175-184 | each event keeps exactly the latest revision active, except exactly the stale end of a provisioning task |
| `DeploymentRevisions.RunKeepsLatestIff` | src/blockhost_backend/api/deployments.py:321-330 | over a run the rule holds throughout exactly if no task ends stale |
| `DeploymentRevisions.BuildOvertaken` | src/blockhost_backend/services/provisioning.py:216-221 | a push during a build is enough: two revisions are active when the build's task ends |
| `DeploymentRevisions.RedeployRestores` | src/blockhost_backend/api/deployments.py:321-330 | the next deployment of any kind restores the rule |
| `DeploymentRevisions.RollbackRestores` | src/blockhost_backend/api/deployments.py:374-415 | a rollback brings back the image and kept environment of its target in a new latest revision |
| `DeploymentRevisions.UpdateRedeploys` | src/blockhost_backend/api/deployments.py:519-550 | a running placed deployment gets a new latest revision with the new variables and its current image; any other one just keeps the variables |
| `DeploymentRevisions.DeleteRedeploys` | src/blockhost_backend/api/deployments.py:551-585 | deleting a known key is the update to the other variables |
| `DeploymentRevisions.UpdateThenRollback` | src/blockhost_backend/api/deployments.py:366-419 | a later rollback to that revision restores its image, and its variables exactly unless they were empty and there are others now |
| `DeploymentRevisions.RestartAndPush` | src/blockhost_backend/api/deployments.py:311-330 | a restart and a push add a latest revision without an image, a restart with the variables |
| `DeploymentRevisions.TasksEnd` | src/blockhost_backend/services/provisioning.py:206-257 | a finished task leaves its revision running with the image it started, a failed one marks the latest revision |
| `DeploymentRevisions.AppDeployment.DeactivateOldRevisions` | src/blockhost_backend/api/deployments.py:175-184 | the loop deactivates every revision and changes nothing else |
| `DeploymentRevisions.AppDeployment.RestartDeployment` | src/blockhost_backend/api/deployments.py:311-330 | a restart is the restart event of the model |
| `DeploymentRevisions.AppDeployment.RollbackDeployment` | src/blockhost_backend/api/deployments.py:366-419 | a rollback is refused without a target, else it is the rollback event |
| `DeploymentRevisions.AppDeployment.UpdateEnvVars` | src/blockhost_backend/api/deployments.py:519-550 | changing variables redeploys a running deployment |
| `DeploymentRevisions.AppDeployment.DeleteEnvVar` | src/blockhost_backend/api/deployments.py:552-582 | deleting a variable redeploys a running deployment, an unknown one is an error |
| `DeploymentRevisions.AppDeployment.PushReceived` | src/blockhost_backend/api/deployments.py:795-808 | a push to the deployed branch adds the new active revision |

## Left out

- HTTP, WebSocket, Redis, Docker, systemd and S3 transport, authentication, permissions, rate limits,
  bans, and the user interfaces: no logic of the kind proved here.
- Bytes of tar, gzip and SHA-256, progress percentages, sizes and heartbeats of jobs.
- Symbolic links as targets: a link counts as dangling, and copying onto folders or links is not modelled.
- Two jobs that change one server folder at once on the file system: the exclusion of jobs is proved on
  their statuses, the file system job by job.
- Failing commits inside a backup job, and jobs whose backup or server row is missing.
- The dispatcher of schedules (`orchestrator/backup.py:865-943`): it persists skipped or deferred
  schedules only if a later one commits.
- Servers without a node in the disjointness of ports: the unique key does not cover them.
- The path of a start that finds `vm_port` unset (`api/servers.py:689-691`, `709-711`): the column is
  never null and the allocator never returns zero.
- ServerMigration.Migration.Migrate: what is played on the new node after the start is not counted as a
  newer version.
- The rebalancing service and automatic sleep and wake-up; only migration by request is modelled.
- Digits and upper-case letters outside ASCII in `isdigit`, `int` and `lower`, the limit of newer
  interpreters on the digits of a number, and values that are neither boolean, number nor text.
- ServerProperties.Universal: the text layer is modelled on decoded characters; a file that is not UTF-8
  raises in the original.
- The lenient decoding of a pong received by `bedrock_unconnected_ping` and of RCON payloads; payloads
  are bytes there.  Latency, time-outs and the authentication handshake of RCON.
- RconProtocol.RconClient.Command: a time-out in the middle of a packet, which drops the bytes read so
  far, is not modelled; the stream ends or goes on.
- Parsing the JSON text of a Java ping.
- The `transaction.completed` branch of the webhook, which names a status the enumeration lacks, event
  types without a branch, signatures, and events whose custom data is null.
- PaddleWebhook.Webhook.Handle: the row's user, plan, dates and its server's suspension are reduced to
  the columns that decide which row is found and whether a task is queued.
- Deployments: builds, containers, routes, health checks and deletion; provisioning only as far as it
  touches revisions.  Two endpoint calls of one deployment at once.
- The agent's health loop and its other routes.
