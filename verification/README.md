# k8s-snap in Dafny

k8s-snap takes a point-in-time snapshot of a live Kubernetes cluster, stores it as an archive in an
object store, keeps archives and snapshot records in agreement, and restores filtered parts of a
snapshot into another cluster. This project models that program and proves what it is for.

Check everything with `dafny verify dfyconfig.toml`.

## What is modelled, and what is proved

**The snapshot protocol** (`Text`, `Objects`, `Resources`, `Paths`, `EventFold`, `EventReplay`,
`SnapshotConsistency`, `SnapshotTaking`, `ListedTypes`). The program lists each resource type at a
different moment, watches each from a start marker, and folds the collected events into the lists up to
an end marker. The cluster is a log of writes whose versions increase path by path.
`SnapshotIsConsistent` says that the result is, path by path, the state just before the end marker, for
every history, every choice of list moments and every interleaving. What the environment must provide:
each watch delivers every event of its type between the markers in version order (and anything later), a
delete event carries its own version, versions are int64 numbers below that of the end marker, and a
path belongs to one type. `ListedTypes` says which types are listed, and when taking a snapshot
succeeds, in terms of the server's replies alone.

**The versioned object tracker** (`Tracker`, `TrackerProtocol`). The store with watch fan-out that the
program's own tests snapshot. Its watchers mirror it, and with its log it is a server for which the
protocol is consistent; with its own `Watch`, which replays nothing, a write between list and watch is
lost (`MissedWrite`), and `WatchAfterListing` says exactly when the result is right all the same.

**Records and objects** (`Records`, `Reconciliation`, `ObjectSyncer`, `SyncTheorems`, `ArchiveRecovery`,
`Lifecycle`, `SnapshotHandler`, `SnapshotPasses`). Each operation is a method over an API server with
version-checked updates and an object store, specified by a function; about the functions: the syncer is
idempotent, its outcome is characterized, lost records are rebuilt from the archives the program itself
writes, and the handler converges.

**Housekeeping** (`Housekeeping`, `HousekeepingNames`, `HousekeepingSafety`, `HousekeepingRuns`,
`HousekeepingMistakes`, `HousekeepingPass`, `HousekeepingSync`). Users, passes, delete handlers, the
periodic syncer with and without deletion and validation, crashes, and restarts of the controller with
its restoring sync, step by step over shared state, in any order. Left alone, its passes and its syncs
do what the handler and the syncer do in one go (`UndisturbedPass`, `UndisturbedSync`). If syncs
validate, in every reachable state a Completed record has its object; and whether or not they do, what
the syncer deletes never belongs to a record that is live then or later, as long as no restarted
controller rebuilds it. The latter rests on listing objects before records; `RecordsFirstIsUnsafe` is a
run that shows why. Assumed: names of records are not used again, only the program writes the buckets,
the clock is not at the zero time, users do not write status, and a key is never worked on twice at
once.

**The restore** (`RestorePreference`, `ApiPatterns`, `Extraction`, `RestorePipeline`, `RestoreRun`,
`RestoreAccount`, `RestoredContent`, `RestoreOutcomes`, `PassedOver`, `RestoreOrder`, `Classification`,
`NamespaceRule`, `RestoreGuarantees`, `VolumeLookup`, `ListClosure`, `EndToEnd`, `RoundTrip`,
`Admission`, `RestoreAgain`, `SnapshotRestore`, `RestoreHandler`, `RestorePasses`). The methods of
`RestoreRun` change a target cluster and a status as the flow functions of `RestorePipeline` say. Every
archived item is accounted for once, in every run creations follow the order of the phases, excluded
namespaces stay empty, and restoring a snapshot into an empty cluster creates exactly the wanted objects
with their content (`RestoredContent` says what that is); the cluster need not serve custom types before
their CRDs are restored. Restoring once more changes nothing (`RestoringTwice`). `Admission` says which
those are in terms of the preference and the archived objects alone, and that directories, lists and
searches come to the same. `SnapshotThenRestore` puts snapshot protocol, archive and restore together.

## Where the code does less than one might expect

- A namespaced object whose kind is called Namespace or CustomResourceDefinition (in some other API
  group) is stored on the top level and escapes namespace exclusion: `ForeignKindEscapes`, with the
  exact condition in `ExcludedNamespaceDropped`.
- README.md:165 of the repository says that excludeNamespaces match exactly. The code tests
  substrings of paths (pkg/cluster/restore_pref.go:47 and :70). So a listed name also drops the objects
  of every namespace that begins with it (`PrefixDropped`; with "kube" listed, all of "kube-public":
  `KubePublicIsDropped`), and every Namespace object in whose file name it occurs. The exact conditions
  are `NamespacePrefixRule` for ordinary paths, `NamespaceRuleMeans` for all, and `NamespaceObjectRule`.
- A claim in a namespace called storageclasses, or of another API group, may be extracted as a plain
  resource and is then passed over without being counted (`ClaimSlips`; exact conditions in
  `AllSeenIffNoClaim` and `ObjectsAreAccounted`).
- The search for a claim's volume may pick a volume whose name continues the one looked for, if that
  one is not archived (`WrongVolumeExists`; exact conditions in `ExactVolumeFound` and `PairedByName`).
- The resource-name cache can answer where a fresh lookup fails, if the discovered table has a malformed
  group version (`CacheDisagreesOnMalformedTable`; exact condition in `CacheAgreement`).
- A failed record whose creation time and time to live add up to the zero time would be written again by
  every pass (`DegenerateExists`; exact condition in `FinishedFixpoint`). With int64 durations and
  creation times set by a server that cannot happen (`DegenerateNeedsOldResource`).
- A kind PersistentVolume in a plain directory is created like any other object: the empty case of
  the switch does not fall through to the next (pkg/cluster/restore.go:134). Only kinds of other API
  groups can get there: `VolumePlace`.
- A snapshot that completes between the two listings of a sync can be marked Failed once, as missing
  (`CompletionBetweenListings`) or as not matching (`UploadBetweenListings`); exactly if the first object
  of its name that the sync has listed is missing or does not match (`FailedIffUnmatched`), and never if
  it was Completed before its bucket was listed and the object is the first of its name
  (`CompletedBeforeListingStays`). A later undisturbed sync repairs it (`SyncOutcome`).
- An upload whose object is stored but whose info cannot be read back counts as failed: the snapshot
  fails and the object stays in the bucket (`CompletionStoresObject`, exact condition in
  `FailureLeaves`).

## Model

| member | source | states |
|---|---|---|
| Resources.UncachedIsLastMatch | pkg/cluster/server_resources.go:40-48 | a full scan of a well-formed resource table finds the last resource with the asked group, version and kind, and fails exactly when there is none |
| Resources.CacheAgreement | pkg/cluster/server_resources.go:35-52 | a lookup through the lazily filled cache answers what a full scan answers after every sequence of earlier lookups, if and only if the table is well formed or the scan fails before any resource of that kind |
| Resources.CacheDisagreesOnMalformedTable | pkg/cluster/server_resources.go:22-52 | what the discovery filter keeps of some table, with a malformed group version behind a good one, makes the first lookup fail and the second, identical one succeed |
| Resources.ServerResources.ResourceName | pkg/cluster/server_resources.go:35-52 | the scan that fills the cache leaves the cache and gives the answer that the lookup function prescribes; with a transparent cache the answer is the full scan's |
| Resources.ServerResources.ResourcePath | pkg/cluster/server_resources.go:55-74 | the built path is the path of the item, or an error exactly when the version is malformed or the kind unknown |
| Paths.PathIdentity | pkg/cluster/server_resources.go:55-74 | a path with slash-free parts determines API version, namespace, resource and name |
| Paths.ResourcePathInjective | pkg/cluster/server_resources.go:55-74 | two addressable objects have the same path exactly when they are the same object, if no two kinds of one version share a resource name |
| Paths.ContainsSegment | pkg/cluster/restore_pref.go:75-87 | the substring test "/x/" on a path holds exactly when some segment but the last is x |
| Paths.StripRecovers | pkg/cluster/restore.go:276 | stripping the first occurrence of the snapshot name from an entry name gives back the path that was written, whatever it contains |
| Paths.EscapeInverts | pkg/cluster/restore.go:292 | replacing slashes by bars can be undone exactly on paths without bars |
| Paths.ArchivePathInjective | pkg/cluster/snapshot.go:274-290 | different objects get different archive paths, provided namespaces and CRDs each have one object per name |
| EventFold.TargetIndex | pkg/cluster/snapshot.go:222-229 | the search returns the first item with the event's path, or -1 when there is none |
| EventFold.ApplyEvent | pkg/cluster/snapshot.go:213-255 | one iteration of the sync loop changes the list as one step of the fold does: ignored when not older than the end version or not newer than the stored item, replaced, removed or appended otherwise |
| EventFold.SyncEvents | pkg/cluster/snapshot.go:211-256 | the loop that replaces, deletes and appends in the snapshot list computes the fold of the collected events |
| EventFold.FoldLookup | pkg/cluster/snapshot.go:212-256 | paths stay unique, and every path ends up as the replay of exactly its own events in their order |
| EventFold.FoldProvenance | pkg/cluster/snapshot.go:212-256 | every item of the result was listed or delivered by an added or modified event older than the end version |
| EventFold.LateEventsIgnored | pkg/cluster/snapshot.go:217-221 | an event at or after the end version, with an unparsable version or without an object changes nothing, wherever it is delivered |
| EventFold.Confluence | pkg/cluster/snapshot.go:212-256 | two deliveries with the same subsequence per path give the same path-to-object map, the same items and the identical sorted Contents |
| EventReplay.ReplayIdempotent | pkg/cluster/snapshot.go:231-252 | replaying any suffix of one path's in-order events onto their result changes nothing |
| EventReplay.RefoldIdempotent | pkg/cluster/snapshot.go:212-256 | refolding any suffixes of in-order streams onto the finished list leaves it unchanged, item for item and in order |
| SnapshotConsistency.ReplayWindow | pkg/cluster/snapshot.go:141-256 | for one path: the object listed at any moment between the markers, with the path's writes since the start marker replayed, is the object just before the end marker, also when it was deleted and recreated around the listing |
| SnapshotConsistency.SnapshotIsConsistent | pkg/cluster/snapshot.go:136-256 | for every write history, every choice of list moments and every interleaving of complete in-order watches: at each path of a listed type the snapshot holds exactly the object that was there just before the end marker, and nothing at other paths |
| SnapshotConsistency.NoMarkers | pkg/cluster/snapshot.go:133-141 | the snapshot contains neither the start nor the end marker, whatever other clients write between the creation of a marker and its deletion |
| Tracker.ObjectTracker.Add | pkg/cluster/versioned_object_tracker.go:254-314 | create and update: the error, the version used up, the stored object and the one event sent; a refused request changes no object and sends nothing |
| Tracker.ObjectTracker.Delete | pkg/cluster/versioned_object_tracker.go:333-361 | delete removes the object and sends one event that carries the delete's own version |
| Tracker.ObjectTracker.NextVersion | pkg/cluster/versioned_object_tracker.go:281-283 | every write request takes the next version |
| Tracker.Broadcast | pkg/cluster/versioned_object_tracker.go:293-311 | the event is appended to every addressed watcher and to no other |
| Tracker.ObjectTracker.Watch | pkg/cluster/versioned_object_tracker.go:146-157 | a new watcher sees events from its registration on and none before |
| Tracker.ObjectTracker.GetWatches | pkg/cluster/versioned_object_tracker.go:239-252 | an event goes to the watchers of its namespace and to those of all namespaces, each once |
| Tracker.ObjectTracker.List | pkg/cluster/versioned_object_tracker.go:106-144 | the list holds exactly the objects of the type and namespace, ordered by namespace and name |
| Tracker.ObjectTracker.Get | pkg/cluster/versioned_object_tracker.go:159-186 | get returns the stored object or not-found |
| Tracker.WatchRefinesStore | pkg/cluster/versioned_object_tracker.go:239-314 | replaying what was delivered between two moments onto the objects of the earlier one gives the objects of the later one |
| Tracker.StateByNamespace | pkg/cluster/versioned_object_tracker.go:366-379 | what a namespace's watcher mirrors are the objects of that namespace among all objects of the type |
| Tracker.AllNamespacesSeeAll | pkg/cluster/versioned_object_tracker.go:245-249 | an all-namespaces watcher is sent every event of its type exactly once, in version order |
| Tracker.DeliveriesIncrease | pkg/cluster/versioned_object_tracker.go:281-283 | the versions of the events a watcher is sent strictly increase |
| Tracker.TickedLogIsValid | pkg/cluster/versioned_object_tracker.go:281-283 | until the counter passes int64, the writes of a tracker have parsable, strictly increasing versions, gaps left by refused requests included |
| Tracker.ObjectTracker.WatcherMirrorsStore | pkg/cluster/versioned_object_tracker.go:146-157 | in every reachable tracker, replaying a watcher's events onto the objects at its registration gives the current objects; its versions increase |
| TrackerProtocol.TrackerRunIsValid | pkg/cluster/snapshot.go:143-195 | listing and watching a tracker meets the conditions of the snapshot protocol |
| TrackerProtocol.TrackerSnapshotIsConsistent | pkg/cluster/snapshot.go:136-256 | composition: an item is in the snapshot of a tracker if and only if the tracker stored it under a listed type just before the end marker |
| TrackerProtocol.LateReplay | pkg/cluster/versioned_object_tracker.go:146-157 | with a watch that starts after the listing, the first write delivered for a path settles it, whatever the listing said; a path without one keeps what was listed |
| TrackerProtocol.WatchAfterListing | pkg/cluster/versioned_object_tracker.go:146-157 | a watch that starts after the listing and replays nothing gives the right object for a path if and only if a write to it is still delivered, or the writes missed in between left the object as it was |
| TrackerProtocol.MissedWrite | pkg/cluster/versioned_object_tracker.go:146-157 | a history in which an update between listing and watch is lost |
| SnapshotTaking.ListGroup | pkg/cluster/snapshot.go:150-194 | the loop over one group version: which of its resources are listed and watched (said without it in ListedTypes.GroupTypesAre), the lists joined in order, the first error ending it |
| SnapshotTaking.ListAndWatch | pkg/cluster/snapshot.go:143-195 | the whole table is listed exactly when its group versions parse and every list and watch replies |
| SnapshotTaking.WriteItems | pkg/cluster/snapshot.go:269-306 | one entry per item, in order, under its archive path; Contents and NumberOfContents record them |
| SnapshotTaking.SetTaken | pkg/cluster/snapshot.go:308-321 | the status gets the end marker's time and version, the deadline and time to live (asked for, or counted from the end marker) and the sorted contents |
| SnapshotTaking.SnapshotWithClient | pkg/cluster/snapshot.go:99-352 | which replies make it succeed, fail for good or be retried; on success the archive holds the folded items and the snapshot record, and the status its end marker, deadline and sorted contents; on failure the status is untouched |
| SnapshotTaking.UploadSnapshot | pkg/cluster/snapshot.go:371-407 | the archive is stored unless the upload itself fails; only if its info can be read back are size and time recorded and the upload done, otherwise the object stays and the try counts as failed; permanent errors are told apart |
| ListedTypes.TypesAre | pkg/cluster/snapshot.go:140-166 | a type is listed if and only if a group of the table that parses to its group and version has a resource of its name, and the name is neither nodes nor events |
| ListedTypes.FilteredHas | pkg/cluster/server_resources.go:18-27 | the filtered table has a resource if and only if the discovered one has it with the verbs list, create, get and delete |
| ListedTypes.ListedTypesAre | pkg/cluster/snapshot.go:140-166 | put together: which types a snapshot of a discovered table lists, exactly |
| ListedTypes.SucceedsMeans | pkg/cluster/snapshot.go:106-202 | taking a snapshot succeeds if and only if the server returns its table, whose kept groups parse, both markers, and list and watch of every type to be held |
| ListedTypes.GroupTypesAre | pkg/cluster/snapshot.go:150-155 | of one group version every resource is listed but nodes and events |
| Reconciliation.ReconcileIdempotent | backup_syncer.go:222-330 | deciding a record's fate twice is deciding it once, for every flag combination |
| Reconciliation.ReconciledOutcome | backup_syncer.go:222-330 | with deletion and validation a finished record becomes Completed exactly when there is an object of its name and the first has the recorded size and, to the second, the recorded time; it is then pointed at that object's bucket |
| Reconciliation.ReconciledCases | backup_syncer.go:222-330 | for all flags, what becomes of a finished record: phase, reason and bucket by whether an object of its name is listed and has its size and time; all else in the record stays |
| Reconciliation.FirstAmongOwned | backup_syncer.go:204-216 | deleting the orphans leaves every record's first object as it was |
| Reconciliation.RebuiltAgrees | backup_syncer.go:154-167 | a rebuilt record is Completed, has name, spec and contents of the archived one and size and time of its object, and is kept as long as the archived one was to be, but at least thirty days; a validating sync keeps it so and names its bucket |
| Reconciliation.FoundEntryIsFirst | backup_syncer.go:99-117 | what is read as the record is the content of the first regular entry whose name, the snapshot name stripped, is that of the snapshot file |
| ObjectSyncer.Controller.GetObjectList | backup_syncer.go:32-59 | the list holds exactly the objects of the configured buckets, first bucket first; it fails exactly when some bucket cannot be reached |
| Records.ObjectStore.ListObjectInfo | backup_syncer.go:50-55 | a bucket is listed completely, each object once |
| Records.RecordServer.Update | backup_handler.go:247-252 | an update is refused exactly unless it is based on the stored version; what is stored has lost fractions of seconds |
| ObjectSyncer.Controller.UpdateSnapshotStatus | backup_handler.go:241-253 | phase and reason are written with the record, exactly if its version is the stored one |
| ObjectSyncer.Controller.FindOrphans | backup_syncer.go:203-216 | the orphans are exactly the listed objects that no listed record is named after |
| ObjectSyncer.Controller.FindObject | backup_syncer.go:229-251 | the search stops at the first listed object of the record's name |
| ObjectSyncer.Controller.SiftSnaps | backup_syncer.go:219-262 | finished records are sorted into not found, invalid and valid; of the records only the valid ones of another bucket are written, to name that bucket |
| ObjectSyncer.Controller.Repoint | backup_syncer.go:237-246 | a valid record whose object lies in another bucket is written with that bucket, otherwise left alone |
| ObjectSyncer.Controller.DeleteOrphans | backup_syncer.go:265-276 | exactly the orphans disappear from the buckets |
| ObjectSyncer.Controller.HandleOrphans | backup_syncer.go:264-287 | deleting goes before restoring; with neither flag nothing happens to the orphans |
| ObjectSyncer.Controller.RestoreOrphans | backup_syncer.go:279-287 | every readable orphan has a record afterwards, every new record is rebuilt from an orphan, older ones are as before |
| ObjectSyncer.Controller.RestoreSnapshotFromObject | backup_syncer.go:61-173 | a readable object whose archive carries the record it is named after gets that record back, rebuilt, unless the record exists; nothing else changes |
| ObjectSyncer.Controller.ReadSnapshotJson | backup_syncer.go:99-117 | the search finds the first regular entry that is the snapshot file once the snapshot name is stripped |
| ObjectSyncer.Controller.RecreateSnapshot | backup_syncer.go:145-173 | creating, reading back, amending and completing a record: when it succeeds, and the record it leaves |
| ObjectSyncer.Controller.MarkAll | backup_syncer.go:289-330 | every listed record that does not have the phase is written with it, and no other |
| ObjectSyncer.Controller.MarkSnaps | backup_syncer.go:289-331 | the three groups of status writes, each on records as the server holds them |
| ObjectSyncer.Controller.SyncObjects | backup_syncer.go:175-334 | nothing happens without flags or with an unreachable bucket; otherwise buckets and records end up as a whole sync prescribes, record by record |
| ObjectSyncer.Assemble | backup_syncer.go:217-330 | the groups of writes, in their order, amount to one decision per listed record |
| SyncTheorems.SyncFixpoint | backup_syncer.go:202-330 | for every flag combination that does not restore, a second undisturbed sync writes no record and deletes no object |
| SyncTheorems.RestoringSyncSettles | backup_syncer.go:279-330 | a restoring sync settles after its second run: the first re-creates every readable record, the second at most points the new ones at their buckets, the third does nothing |
| SyncTheorems.SyncOutcome | backup_syncer.go:202-330 | after a deleting and validating sync every remaining object has a record, a finished record is Completed exactly when the first object of its name has its size and, to the second, its time, and then names that object's bucket; unfinished records are untouched |
| SyncTheorems.SyncCases | backup_syncer.go:202-330 | for all flags without restoring, what a whole sync makes of each finished record, by the object of its name in the first bucket that has one |
| SyncTheorems.LostRecordIsRebuilt | backup_syncer.go:232-262 | object by object: a readable stored object with a name of its own gets its record back, rebuilt from it, whatever else the buckets hold; the next sync leaves that record Completed and pointed at its bucket |
| SyncTheorems.RebuiltRecordsHaveObjects | backup_syncer.go:232-262 | every record that a restoring sync adds is rebuilt from a stored object |
| SyncTheorems.LostRecordsAreRebuilt | backup_syncer.go:232-262 | so buckets of readable objects with different names get all their records back |
| ArchiveRecovery.ArchiveYieldsRecord | pkg/cluster/snapshot.go:272-345 | in an archive the program writes, the search for the snapshot file finds exactly the record that was written, never an item |
| ArchiveRecovery.TakenSnapshotIsRecoverable | pkg/cluster/snapshot.go:308-345 | the stored object of a snapshot that was taken can be rebuilt from: same name, spec, version, contents and deadlines up to fractions of a second, with size and time of the object |
| Lifecycle.CloseFollowsEdges | backup_handler.go:172-235 | the closing part of a pass only follows edges of the phase diagram, except that a refused delete fails the resource |
| Lifecycle.FinishedPass | backup_handler.go:196-235 | a finished resource is deleted exactly when its deadline has passed, never while the requested deadline is ahead; the deadline in force becomes the requested one; time to live as asked for or up to that deadline |
| Lifecycle.FinishedFixpoint | backup_handler.go:196-235 | the next pass at the same time writes nothing, if and only if the computed deadline of a failed resource is not the zero time |
| Lifecycle.DegenerateNeedsOldResource | backup_handler.go:197-210 | the exception cannot arise for a resource created in 1970 or later with an int64 time to live |
| Lifecycle.DegenerateExists | backup_handler.go:197-210 | without those bounds it does: a creation time and time to live that add up to the zero time |
| Lifecycle.PastDeadlineIsRemoved | backup_handler.go:182-189 | a new resource whose requested deadline is past fails, and the next pass deletes it |
| Lifecycle.NewPass | backup_handler.go:174-194 | a new resource is written once: queued, with the default time to live if it asks for nothing, or failed if its deadline has passed |
| Lifecycle.WaitingPass | backup_handler.go:172-235 | a queued or worked-on resource is not written by the closing part, and deleted exactly when it has a deadline that has passed |
| Lifecycle.RefusedDelete | backup_handler.go:223-235 | a finished resource whose delete is refused fails with that error and keeps its deadline |
| SnapshotHandler.RetryNotify | backup_handler.go:134-164 | tries until one succeeds, one fails for good or time is up |
| SnapshotHandler.RetrySucceeds | backup_handler.go:134-164 | retrying succeeds if and only if some try does and none before it fails for good |
| SnapshotHandler.RetryEnds | backup_handler.go:134-164 | what retrying ends with is the first try that succeeds or fails for good, or the last |
| SnapshotHandler.Handler.RetryUpload | backup_handler.go:153-157 | the retried upload ends as its tries say and leaves in the bucket the object whose info was read back, or else the last one that a failed try stored |
| SnapshotHandler.FailureLeaves | backup_handler.go:153-166 | an upload that fails in the end leaves an object behind if and only if some try that was made stored one, and then the last such try's |
| SnapshotHandler.Handler.CheckStopped | backup_handler.go:99-112 | an InProgress record fails exactly when the retry time and one second have passed since its creation |
| SnapshotHandler.Handler.TakeAndUpload | backup_handler.go:114-170 | the writes of the taking part, whether the pass returns early, and the object it uploads |
| SnapshotHandler.Handler.InitializeSnapshot | backup_handler.go:174-194 | a new record is queued, with thirty days to live unless asked otherwise, or fails if its deadline is past |
| SnapshotHandler.Handler.SetFailedDeadline | backup_handler.go:196-210 | a failed record without a deadline gets one |
| SnapshotHandler.Handler.FollowEditedDeadline | backup_handler.go:212-221 | a finished record follows an edited deadline |
| SnapshotHandler.Handler.DeleteExpired | backup_handler.go:223-235 | an expired record is deleted, or failed if the delete is refused |
| SnapshotHandler.Handler.SnapshotSyncHandler | backup_handler.go:74-239 | an undisturbed pass leaves records, version and buckets exactly as the pass function says, for every record and every failure on the way |
| SnapshotPasses.PassFollowsEdges | backup_handler.go:99-235 | whatever a pass meets, the phases it writes go new to queued or failed, queued to in progress, in progress to completed or failed, and otherwise stay; only a refused delete fails a record from elsewhere |
| SnapshotPasses.CompletionStoresObject | backup_handler.go:114-170 | a pass that completes a queued record has stored the archive it took under its name in the configured bucket, nothing else changed, with the recorded size and time, and has set marker, contents and deadline; a pass that does not complete it fails it, and changes the buckets if and only if some try of the upload stored the object without reading its info back, then only by the last such object |
| SnapshotPasses.QueuedOutcome | backup_handler.go:114-170 | a queued record completes if and only if its bucket is configured, the snapshot is taken and its archive uploaded; otherwise it fails with the error of the first that is not; what was taken is on the record either way |
| SnapshotPasses.NewRecordPass | backup_handler.go:174-194 | a new record is queued, with thirty days to live if it asks for nothing, or fails if its deadline has passed; the rest of it stays |
| SnapshotPasses.WaitingRecordPass | backup_handler.go:114-235 | a record that waits in the queue is left alone until its deadline |
| SnapshotPasses.InProgressPass | backup_handler.go:99-112 | a record found InProgress fails if and only if the retry time and one second have passed since its creation; otherwise it is not written |
| SnapshotPasses.FinishedRecordPass | backup_handler.go:212-235 | the deletion rule and the deadline rule for snapshot records; all else in the record stays |
| SnapshotPasses.FinishedRecordFixpoint | backup_handler.go:196-235 | when a second pass over a finished record writes nothing, exactly |
| SnapshotPasses.HandlerConverges | backup_handler.go:74-239 | from any record that can be dated, three passes at a fixed time delete it or reach a record that further passes leave alone |
| RestoreHandler.RestoreSyncHandler | restore_handler.go:64-232 | an undisturbed pass leaves the Restore as the pass function says, and touches the target cluster exactly when it is queued and everything it needs is there |
| RestoreHandler.DoRestore | restore_handler.go:90-165 | the writes of the restoring part, and when the target is touched |
| RestoreHandler.InitializeRestore | restore_handler.go:169-188 | a new restore is queued, with seven days to live unless asked otherwise, or fails if its deadline is past |
| RestoreHandler.DeleteExpired | restore_handler.go:216-228 | an expired restore is deleted, or failed if the delete is refused |
| RestorePasses.PassFollowsEdges | restore_handler.go:90-228 | the phases a restore pass writes follow the same edges |
| RestorePasses.RestoreIsGated | restore_handler.go:96-165 | a queued restore completes if and only if its snapshot is Completed, bucket, secret and preference exist and the restore goes through; when it was carried out the Restore holds what it counted, its time and, once completed, its version and the requested deadline or else the restore's; when it was not, no counter changes |
| RestorePasses.NewRestorePass | restore_handler.go:169-188 | a new restore is queued, with seven days to live if it asks for nothing, or fails if its deadline has passed; the rest of it stays |
| RestorePasses.WaitingRestorePass | restore_handler.go:90-228 | a restore that waits or is being carried out is left alone until its deadline |
| RestorePasses.FinishedRestorePass | restore_handler.go:190-228 | deletion, deadline and fixpoint rules for restores |
| HousekeepingSafety.WriteKeeps | backup_handler.go:241-253 | a version-checked write that keeps what is known of the stored file, or adds a file that is there, keeps what every other participant relies on |
| HousekeepingSafety.PlanOk | backup_syncer.go:202-330 | because objects were listed before records, every object the syncer plans to delete belongs to a name that is dead, and every record it plans to complete knows its file |
| HousekeepingSafety.WorkerStepKeeps | backup_handler.go:99-235 | every step of a pass keeps the invariant, conflicts included |
| HousekeepingSafety.TaskStepKeeps | backup_syncer.go:264-330 | every write and every deletion of the syncer keeps the invariant |
| HousekeepingRuns.StepKeeps | backup_handler.go:281-311 | the invariant is kept by every step of users, passes, delete handlers, validating syncs, crashes and restarts |
| HousekeepingRuns.CompletedRecordsAgree | backup_syncer.go:222-330 | agreement: in every reachable state each Completed record has a stored object of its name whose size is the recorded one and whose time, cut to the second, is the recorded one |
| HousekeepingNames.PlanDeletesDead | backup_syncer.go:264-330 | a sync with any flags plans to delete only objects whose names no live record has and none ever gets by creation |
| HousekeepingNames.StepNames | backup_handler.go:281-311 | every step of the machine, restarts included, keeps what is known of names; none but a restart gives a used name a record again |
| HousekeepingNames.DeletedObjectsStayUnowned | backup_syncer.go:190-216 | safety, whether or not the syncs validate: an object the syncer deletes belongs to no record that is live then, nor to one of any later state unless a restarted controller rebuilds it |
| HousekeepingRuns.QuietDeletionsStayUnowned | backup_syncer.go:190-216 | the same from any state between passes and syncs |
| HousekeepingRuns.RestoredIsOk | controller.go:224-249 | a record that the restoring sync of a starting controller re-creates describes its stored object |
| HousekeepingRuns.RecordsFirstIsUnsafe | backup_syncer.go:190-197 | listing records before objects would not be safe: a reachable state in which the object of a live record is planned for deletion |
| HousekeepingMistakes.FailedIffUnmatched | backup_syncer.go:264-330 | a sync marks a finished record Failed if and only if it deletes and has listed no object of the record's name, or validates and the first listed one differs in size or, to the second, in time |
| HousekeepingMistakes.SeenWhenListed | backup_syncer.go:190-197 | listing the bucket that holds a Completed record's object sees it, if nothing of that name was found before |
| HousekeepingMistakes.SeenThroughout | backup_syncer.go:190-197 | what a listing has seen it keeps seeing until the records are listed, whatever others do |
| HousekeepingMistakes.CompletedBeforeListingStays | backup_syncer.go:190-216 | in every run: a record already Completed when its bucket is listed, its object first of its name, is not marked Failed by that sync |
| HousekeepingMistakes.CompletionBetweenListings | backup_syncer.go:190-216 | a reachable state in which a Completed record, its object stored and matching, is about to be marked Failed because no object was listed, and the next step marks it |
| HousekeepingMistakes.UploadBetweenListings | backup_syncer.go:190-216 | the same because the object of an earlier, failed try was listed |
| HousekeepingPass.UndisturbedPass | backup_handler.go:74-239 | left alone, a pass of the machine ends within nine steps in exactly the state that the pass function of the handler gives, an object left by a failed upload included |
| HousekeepingSync.PlanTarget | backup_syncer.go:202-330 | the tasks the machine plans make of each listed record what the program decides for it, and do not write a record that is to stay |
| HousekeepingSync.PlanTasks | backup_syncer.go:203-276 | the plan deletes exactly the listed objects that no listed record owns, if asked to delete; all other tasks are about listed records |
| HousekeepingSync.UndisturbedSync | backup_syncer.go:171-334 | left alone, a sync of the machine ends with records and buckets as the whole sync of the program prescribes, for every state and both flags, and changes nothing else |
| HousekeepingSync.DeletionRemovesObject | backup_handler.go:281-311 | a deleted record, once its event is handled, is gone with its object; every other record and object stays |
| RestorePreference.Preference.PreferedToRestore | pkg/cluster/restore_pref.go:42-98 | the loops classify a path as the classification function does |
| RestorePreference.Preference.AnyMatched | pkg/cluster/restore_pref.go:14-26 | some listed API path matches, by prefix or by prefix and part |
| ApiPatterns.PatternMeans | pkg/cluster/restore_pref.go:14-26 | a pattern matches a path if and only if it has no comma and begins the path, or has one comma and the path begins with what is before it and contains what is after it |
| ApiPatterns.PairPattern | pkg/cluster/restore_pref.go:20-24 | a pattern of two comma-free parts matches exactly the paths that begin with the first and contain the second |
| ApiPatterns.LongPattern | pkg/cluster/restore_pref.go:14-26 | a pattern with two or more commas matches nothing |
| RestorePreference.Preference.IsUserNamespace | pkg/cluster/restore_pref.go:100-107 | a namespace is the user's exactly when it is not listed as excluded, by equality |
| RestorePreference.Preference.IsIncludedStorageClass | pkg/cluster/restore_pref.go:222-229 | a storage class is included exactly when it begins with a listed one |
| RestorePreference.Preference.HasUserSubject | pkg/cluster/restore_pref.go:171-182 | some subject is a service account of a namespace that is not excluded |
| RestorePreference.Preference.AddBinding | pkg/cluster/restore_pref.go:167-194 | role and binding are noted exactly if the binding gives a role to such a subject |
| RestorePreference.Preference.SetIncludedClusterRoles | pkg/cluster/restore_pref.go:153-198 | appends the bound roles and their bindings in file order; fails exactly when a binding file cannot be loaded |
| RestorePreference.Preference.SetServiceList | pkg/cluster/restore_pref.go:200-220 | appends the services in file order; fails exactly when a service file cannot be loaded |
| RestorePreference.Preference.InitializeByDir | pkg/cluster/restore_pref.go:118-151 | resets the lists to those of the two directories |
| RestorePreference.BoundRolesFrom | pkg/cluster/restore_pref.go:159-196 | a role and binding are listed if and only if some archived binding gives that role to a service account of a namespace that is not excluded |
| RestorePreference.BoundRoleMeans | pkg/cluster/restore_pref.go:159-196 | which role a binding gives, in terms of its members: subjects of kind ServiceAccount with a namespace that is not excluded, and the name in roleRef |
| RestorePreference.ServicesFrom | pkg/cluster/restore_pref.go:206-217 | a service is listed if and only if some service file holds it |
| Extraction.ExtractionLosesNothing | pkg/cluster/restore.go:267-304 | with distinct bar-free paths a directory holds exactly the files of the entries classified into it: extraction overwrites nothing |
| Extraction.ExtractionConserves | pkg/cluster/restore.go:267-304 | archived items are as many as preference-excluded ones plus the files of the six directories |
| Extraction.PutFileListed | pkg/cluster/restore.go:298-302 | a directory stays sorted by name, and grows by one exactly when the name is new |
| RestoreAccount.ReportAccounts | pkg/cluster/restore.go:56-82 | reporting a create adds exactly one item to exactly one of the four outcomes, keeps every counter at the length of its list, and counts as created what the target has logged as created |
| RestoreOutcomes.ReportEnters | pkg/cluster/restore.go:56-82 | no error is entered as created, an error that says already exists as existing, any other as failed with at most 300 characters of it; nothing else in the account changes |
| RestoreOutcomes.CreateOutcome | pkg/cluster/restore.go:38-54 | an item whose key is taken gets an already-exists error, one that the target refuses the target's; otherwise it is there, and nothing else has changed |
| RestoreOutcomes.FileOutcome | pkg/cluster/restore.go:92-159 | one file of a directory: entered as excluded with the reason of the rule that holds it back, passed over if it is a claim, or created with its content and entered |
| RestoreOutcomes.HeldBackClaimOutcome | pkg/cluster/restore_pv.go:65-112 | a claim without spec, class to restore, volume name or volume file is entered as excluded with that reason |
| RestoreOutcomes.PairOutcome | pkg/cluster/restore_pv.go:108-176 | a claim whose volume is found: volume first, claim only if the volume was created, both with their content and entered; the restore goes on if and only if the claim was not created or the volume is bound within ten polls |
| RestoreOutcomes.FinishedStatus | pkg/cluster/restore.go:370-384 | a restore that goes through notes time and version of its marker, and the deadline asked for or counted from it |
| RestoredContent.PlainContent | pkg/cluster/restore.go:145-148 | a plain object is created with all it had but version and UID |
| RestoredContent.VolumeContent | pkg/cluster/restore_pv.go:115-118 | a volume is created with all it had but version, UID, status and the claimRef of its spec |
| RestoredContent.ClaimContent | pkg/cluster/restore_pv.go:138-145 | a claim is created with all it had but version, UID, status, the volumeName of its spec and the bind-completed annotation |
| RestoreOutcomes.RecreatedOnce | pkg/cluster/restore.go:145-148 | these conditions leave one object: what is created is determined by the archived object and its directory |
| RestoreRun.Restorer.RestoreItem | pkg/cluster/restore.go:94-158 | one file: loaded, held back with its reason, or created and reported |
| RestoreRun.Target.Create | pkg/cluster/restore.go:38-54 | what is created under which resource, and the error otherwise |
| RestoreRun.Restorer.RestoreDirectory | pkg/cluster/restore.go:85-161 | the loop restores a directory file by file as the flow function says, up to the first error |
| RestoreRun.Restorer.RestorePV | pkg/cluster/restore_pv.go:40-178 | the loop over the claims does what the flow function says: checks, volume, claim, wait |
| RestoreRun.Restorer.ChooseVolume | pkg/cluster/restore_pv.go:65-112 | why a claim is held back, or the file of its volume |
| RestoreRun.Restorer.SearchVolume | pkg/cluster/restore_pv.go:92-107 | the search finds the first listed file whose name contains the volume's |
| RestoreRun.Restorer.CreatePair | pkg/cluster/restore_pv.go:114-156 | the volume is created freed of its claim; only if that succeeds, the claim follows |
| RestoreRun.Restorer.CreateClaim | pkg/cluster/restore_pv.go:137-176 | the claim is created freed of its volume, and the volume awaited if that succeeds |
| RestorePipeline.WaitOutcome | pkg/cluster/restore_pv.go:158-175 | the first of ten polls that sees anything decides, success if it sees the volume bound and its error otherwise; if none does, the wait ends with a timeout that names the volume |
| RestoreRun.Restorer.WaitForBound | pkg/cluster/restore_pv.go:158-175 | the polling loop ends with that outcome |
| RestoreRun.Restorer.ExtractFiles | pkg/cluster/restore.go:266-304 | the extraction loop builds the directories and counts the excluded entries |
| RestoreRun.Restorer.RunPhases | pkg/cluster/restore.go:312-357 | the phases run in order, each if its directory exists, the resource table read again after the CRDs; the first error ends them |
| RestoreRun.Restorer.RestoreSnapshot | pkg/cluster/restore.go:213-398 | the whole restore leaves target and status as the flow function says, whether it succeeds or stops |
| RestoreAccount.FolderAccounts | pkg/cluster/restore.go:92-159 | a directory pass handles each file once, except claims, which it passes over |
| RestoreAccount.ClaimsAccount | pkg/cluster/restore_pv.go:48-176 | the volume pass handles each claim once and each volume it created once |
| RestoreAccount.RestoreConserves | pkg/cluster/restore.go:235-357 | conservation in a successful restore of any archive: counters are list lengths, entries are preference-excluded plus directory sizes, the four outcomes add up to the files the four directory passes record, the claims and the volumes created |
| PassedOver.ObjectsAreAccounted | pkg/cluster/restore.go:235-357 | the promised equation: archived objects are preference-excluded plus directory sizes, and the four outcomes add up to the sizes of the four directories plus the volume pass, if and only if no claim without owners was extracted to one of the four |
| PassedOver.AllSeenIffNoClaim | pkg/cluster/restore.go:134-137 | a directory pass records all of its files if and only if no claim without owners was extracted to its directory |
| PassedOver.OrdinaryClaimsDoNotSlip | pkg/cluster/restore_pref.go:75-89 | core-group claims outside a namespace called storageclasses never are |
| PassedOver.ClaimSlips | pkg/cluster/restore_pref.go:75-82 | the failure is real: a core-group claim that is extracted among the resources, so that no pass records it |
| RestoreAccount.FailedRestoreIsBalanced | pkg/cluster/restore.go:56-82 | a restore that fails half-way keeps counters and lists together and has created as many objects as it counts |
| RestoreOrder.FolderLog | pkg/cluster/restore.go:92-159 | a directory pass creates items of its files in file order, each at most once and none that a rule holds back |
| RestoreOrder.ClaimsLog | pkg/cluster/restore_pv.go:108-156 | the volume pass creates a claim only directly after the volume that the search chose for it |
| RestoreOrder.FreedIsUnbound | pkg/cluster/restore_pv.go:119-145 | volume and claim are created without claimRef and volumeName, status and server fields |
| RestoreOrder.RestoreOrdered | pkg/cluster/restore.go:312-357 | whether it succeeds or stops, a restore creates namespaces, CRDs, volumes with their claims, other resources and apps, in this order |
| Classification.CoreItemPlace | pkg/cluster/restore_pref.go:62-98 | where an object of the core group is extracted to, by its resource and namespace, the patterns and the names listed |
| Classification.ItemPlace | pkg/cluster/restore_pref.go:62-98 | where an object below the top level is extracted to: dropped when a pattern of excludeApiPathes fits or an excluded name follows, by the segments of its path, to the apps when a pattern of restoreAppApiPathes fits |
| Classification.CrdObject | pkg/cluster/restore_pref.go:54-60 | a CRD is dropped exactly when its path contains a name excluded for CRDs |
| Classification.ClaimPlace | pkg/cluster/restore_pref.go:75-89 | a claim never lands among apps, namespaces or CRDs, and among other resources if and only if its namespace is called storageclasses and the path names a class to restore |
| Classification.VolumePlace | pkg/cluster/restore_pref.go:84-86 | a core-group volume is dropped by a path rule or extracted as a volume |
| Classification.ExcludedNamespaceDropped | pkg/cluster/restore_pref.go:44-73 | an object of an excluded namespace is dropped, if and only if it is not one of a foreign kind called Namespace or CustomResourceDefinition whose top-level path is not excluded |
| Classification.NamespaceObject | pkg/cluster/restore_pref.go:45-51 | a Namespace is dropped exactly when its path contains an excluded name |
| NamespaceRule.ContainsAfter | pkg/cluster/restore_pref.go:70 | a path contains s/n, for a slash-free s, if and only if n directly follows a segment that ends in s |
| NamespaceRule.NamespaceRuleMeans | pkg/cluster/restore_pref.go:68-73 | the namespaces rule drops an object if and only if some listed text directly follows a path segment that ends in namespaces |
| NamespaceRule.BeginsNext | pkg/cluster/restore_pref.go:70 | a slash-free text follows a segment if and only if it begins the next one |
| NamespaceRule.NamespacePrefixRule | pkg/cluster/restore_pref.go:68-73 | on ordinary paths the rule drops an object if and only if a listed name begins its namespace: the match is by prefix, not exact |
| NamespaceRule.PrefixDropped | pkg/cluster/restore_pref.go:68-73 | an object whose namespace begins with a listed name is dropped |
| NamespaceRule.KubePublicIsDropped | pkg/cluster/restore_pref.go:68-73 | with only kube listed, every object of the namespace kube-public is dropped, although the namespace counts as a user namespace |
| NamespaceRule.NamespaceObjectRule | pkg/cluster/restore_pref.go:45-51 | a slash-free listed name drops a Namespace object if and only if it occurs in the object's file name or in the word namespaces |
| Classification.ForeignKindEscapes | pkg/cluster/restore_pref.go:54-60 | the exception is real: in any other API group that serves such a kind, an object of an excluded namespace is restored among the CRDs |
| RestoreGuarantees.CreatedOriginates | pkg/cluster/restore.go:266-357 | everything created is what restoring an archived object that is not excluded makes of it: the same object with the same owners, annotations and fields, but version and UID and, for volumes and claims, what binds them |
| RestoreGuarantees.ExcludedNamespacesStayEmpty | pkg/cluster/restore_pref.go:44-73 | namespace isolation over any run, target and preference, whether or not the restore goes through |
| RestoreGuarantees.ListsMean | pkg/cluster/restore_pref.go:118-220 | what the three lists computed beforehand hold, exactly |
| RestoreGuarantees.CreatedItemsAreListed | pkg/cluster/restore.go:107-143 | what is created respects owners, token secrets and the three lists |
| RestoreGuarantees.BoundRolesAreKept | pkg/cluster/restore.go:124-128 | a role that an archived binding gives to a user's service account is not dropped as unbound |
| ListClosure.CreatedObjectsAreListed | pkg/cluster/restore_pref.go:153-220 | list closure in terms of archived objects: a created binding is called like an archived one that gives a role to a user's service account, a created role is the role of such a binding, and no endpoints belong to an archived service that is restored |
| ListClosure.BoundRoleIsAdmitted | pkg/cluster/restore.go:124-128 | an archived role with such a binding is admitted |
| VolumeLookup.ExactVolumeFound | pkg/cluster/restore_pv.go:92-107 | among core-group volumes the substring search finds the exact volume if and only if its file is archived |
| VolumeLookup.OtherVolumeFound | pkg/cluster/restore_pv.go:94-96 | what it finds otherwise has a file name that begins with the one looked for |
| VolumeLookup.WrongVolumeExists | pkg/cluster/restore_pv.go:94-96 | and it may be another volume |
| VolumeLookup.VolumeFileName | pkg/cluster/restore.go:292 | a core-group volume is extracted to exactly the file name the search looks for |
| EndToEnd.SameFolder | pkg/cluster/restore.go:85-161 | a directory pass does the same under any two resource tables that name the resources of its files alike |
| EndToEnd.SameClaims | pkg/cluster/restore_pv.go:40-178 | so does the volume pass |
| EndToEnd.PhasesCreate | pkg/cluster/restore.go:312-357 | a target that serves the archived namespaces and CRDs, and once these are restored everything else, admits it and binds every volume ends up with exactly the planned items, in their order |
| RoundTrip.ArchiveIsDistinct | pkg/cluster/snapshot.go:274-290 | the archive of one cluster's objects has distinct paths, so extraction loses none of them |
| RoundTrip.PlanHasDistinctKeys | pkg/cluster/restore.go:306-357 | nothing is created twice, if no two claims choose the same volume |
| RoundTrip.RestoreIntoEmptyCluster | pkg/cluster/restore.go:213-398 | restoring a snapshot into an empty cluster that serves custom types only once their CRDs are restored, and admits and binds everything, goes through and creates exactly the plan, in order |
| RoundTrip.PlannedIffAdmitted | pkg/cluster/restore.go:266-357 | an archived object is planned if and only if the extracted directories and lists admit it, and then with its content |
| RoundTrip.RestoredExactly | pkg/cluster/restore.go:266-357 | the round trip on the level of directories and lists: exactly the admitted objects are created, each once and with its content; of the others none appears |
| Admission.ClearIffNotHeldBack | pkg/cluster/restore.go:107-143 | no rule holds an object back if and only if, in terms of the archived objects, it has no owner, is no token secret or claim, its role or binding belongs to a binding that gives a role to a user's service account, and its endpoints to no restored service |
| Admission.SearchIsFirstToFit | pkg/cluster/restore_pv.go:92-107 | the volume search finds the archived volume that is the first, by file name, of those that fit the claim's volume name |
| Admission.NamedIsFirst | pkg/cluster/restore_pv.go:92-107 | if the volume of that name is archived, it is that one and no other |
| Admission.PairedByName | pkg/cluster/restore_pv.go:92-107 | a claim whose volume is archived is paired with the volume its volumeName names, if that has a spec; otherwise only with one whose name continues it |
| Admission.AdmittedIffWanted | pkg/cluster/restore.go:266-357 | admission by directories, lists and searches is the same as a predicate over the preference and the archived objects alone |
| Admission.WantedIsByName | pkg/cluster/restore_pv.go:65-112 | and without lookalike volume names, claims are wanted if and only if they name an archived volume with a spec, and volumes if such a claim names them |
| Admission.WantedAreRestored | pkg/cluster/restore.go:266-357 | the round trip: exactly the wanted objects are created, each once and with its content; of the others none appears |
| Admission.NamedAreRestored | pkg/cluster/restore.go:266-357 | the round trip by names: besides plain objects that no rule holds back, exactly the claims whose volumeName names an archived volume, and those volumes, with their content |
| Admission.ClaimsFollowVolumes | pkg/cluster/restore_pv.go:108-156 | in the volume pass of every restore each item created is the volume of a pair, or the pair's claim directly after it |
| Admission.ClaimFollowsNamedVolume | pkg/cluster/restore_pv.go:88-156 | without lookalikes, a claim comes directly after the volume its volumeName names |
| RestoreAgain.NothingIsCreated | pkg/cluster/restore.go:145-158 | in a target that has objects under the keys of everything planned, a restore goes through, creates nothing, fails nothing, leaves the target as it is and reports what it tried, in order, as existing |
| RestoreAgain.RestoringTwice | pkg/cluster/restore.go:213-398 | restoring a snapshot a second time, however much later, leaves the cluster that the first restore filled as it is and reports as existing exactly the wanted objects other than claims |
| SnapshotRestore.SnapshotItemsAreResult | pkg/cluster/snapshot.go:143-256 | the items the program archives are the result of the protocol run that its replies describe |
| SnapshotRestore.SnapshotHoldsCluster | pkg/cluster/snapshot.go:136-256 | a tracker's snapshot holds an object if and only if the tracker stores it, just before the end marker, under a type that the discovered table offers with the four verbs, other than nodes and events |
| SnapshotRestore.ClusterIsArchivable | pkg/cluster/snapshot.go:272-290 | everything a tracker's snapshot holds is addressable, and its objects have different keys |
| SnapshotRestore.SnapshotThenRestore | pkg/cluster/snapshot.go:99-352 | the whole way: for every history and interleaving, the archive made of a tracker's cluster, restored into an empty one, creates exactly the wanted objects that were stored just before the end marker under any offered type but nodes and events, each once and with its content |

## Left out

- S3, the Kubernetes clients, discovery, kubeconfigs, tar, gzip and JSON bytes: buckets and servers are maps, archives are sequences of entries, replies are inputs, decoding succeeds or fails by the content of an entry.
- Goroutines and the fixed wait of three seconds (pkg/cluster/snapshot.go:170-208): delivered streams are inputs.
- filepath.Join on unusual segments (empty, dots): paths are joined as they are; an item whose path cannot be resolved has the empty path.
- Names are sequences of characters; byte-wise and character-wise order agree on them.
- The counters are unbounded, where the source has int32.
- Time is counted in nanoseconds as an unbounded integer, zero being the zero time; the syncer and the closing part of a pass read the clock once.
- Backoff intervals: a retried operation is a sequence of tries that ends when time is up.
- Generated clients, informers, listers, deep copies, the work queue's rate limiting, events, logging, flags, signals: a lister read is a private current copy.
- Two ObjectstoreConfigs that share one bucket: each configuration has its own contents.
- The tracker's list decoding, Status objects and scheme lookup: objects are added under a given resource type.
- In the housekeeping machine the restoring sync of a starting controller is one step; its single writes are in ObjectSyncer and SyncTheorems.
- ObjectSyncer.Controller.SyncObjects: for a restoring sync the records are characterized when every readable archive carries the record it is named after, which archives written by the program do (ArchiveRecovery.TakenSnapshotIsRecoverable); with foreign archives only the buckets are.
- SnapshotHandler.Handler.SnapshotSyncHandler: the pass is undisturbed, so no update conflicts; conflicts are in Housekeeping.
- RestoreHandler.RestoreSyncHandler: the same, and the restore itself is an input here; it is RestoreRun.Restorer.RestoreSnapshot.
- Options the source lists as not yet done (overwrite, include), and the pytest and postman suites.
