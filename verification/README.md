# A verified model of the OpenShell LXD driver

The driver runs sandboxes as LXD instances. This project models, in Dafny, the parts of it that are hard to get right by
reading: the protocols between concurrent tasks, the address arithmetic behind the egress ACL, and the byte and path
algorithms of the image importer. `dafny verify dfyconfig.toml` checks everything.

The concurrent parts are step systems. Each has a `State`, a `Step` type, `Enabled` (when a step can happen), `Apply`
(what it does), and `Allowed`/`Exec` over sequences of steps. LXD, the network, timers and other users of LXD are steps
too, taken whenever they are enabled, so a theorem about every allowed sequence covers every interleaving, delay, error
and retry. Safety is stated over all runs; what an operation achieves when it runs through is stated as the state it ends
in (the `Outcomes` files). The algorithmic parts are methods with loops, or classes whose methods update their fields, proved against
specifications.

| file | what it models |
|---|---|
| `Watch`, `WatchConvergence`, `WatchDeletions`, `WatchRemovals`, `WatchOutcomes` | the lifecycle watcher, its broadcasts, and the gateways' `WatchSandboxes` calls |
| `RecentEvents`, `Events` | dropping repeated events; what one event asks for |
| `Lifecycle`, `LifecycleOutcomes` | stop, delete and settling starts over per-name locks that a delete removes |
| `Volumes`, `VolumesReleased`, `VolumesOutcomes` | provisioning of auxiliary volumes against clean-up |
| `ImageCache`, `ImageCacheOutcomes`, `Aliases` | importing images once per alias against clean-up of old revisions |
| `Operations` | waiting for an LXD operation over an event stream with reconnects |
| `Cidr`, `Egress`, `RuleMatching`, `IpText` | the public IPv4 space as CIDR blocks; the egress rules and what they let through |
| `Acls`, `AclSync` | ACL rules as JSON; bringing an ACL up to date from several callers |
| `Symlinks` | resolving a guest path inside an unpacked image |
| `OwnerRecord`, `Ownership` | umoci's owner records; the pseudo file that restores ownership |
| `Multipart`, `SplitBody` | the multipart body of a split image upload, and streaming it |
| `Common`, `Text`, `Numerals`, `Sorting` | shared definitions |

## Where the code does less than it says

For each of these a lemma produces the run, and another gives the exact condition, for all runs.

- That a watcher's last snapshot of a sandbox is its latest state (crates/openshell-driver-lxd/src/grpc.rs:276-279) is true
  within one LXD subscription as long as every change comes with a watched event (`WatchConverges`). A change while the
  watcher is disconnected leaves a gateway stale, because a reconnect only publishes deletions
  (`GapLeavesStaleSnapshot`). So does, on a live stream, a change of configuration that a snapshot shows: the stop marker
  decides the reported condition (crates/openshell-driver-lxd/src/mapping.rs:258), the driver clears it without a change of
  status (crates/openshell-driver-lxd/src/driver.rs:693-695 and 719-725), and no watched action announces that
  (`PatchLeavesStaleSnapshot`). Until something new happens to the sandbox, the gateway is current again exactly if the
  change led back to the state it knew (`UnheardChangeNeverSeen`, `UnannouncedStaysAsSeen`).
- A sandbox that is gone when the watcher reads it is left to its deletion event
  (crates/openshell-driver-lxd/src/watcher.rs:225-229). Whether it is reported depends on where the watcher stands at the
  removal and what it has recorded under the name; `RemovalReportedIff` gives the condition for each phase, for as long as
  the connection holds and the name is not given to a new sandbox. A sandbox that a gateway has listed, but that is removed
  before the watcher reads it, goes unreported (`UnreadRemovalUnreported`), and one removed between the first listing and
  the subscription is reported only at the next reconnect (`RemovalBetweenListingAndSubscribing`).
- A reused name can make the watcher report a sandbox that exists (`ReuseReportsLiveSandbox`); `LiveSandboxReportedIff` says
  at exactly which step, and without reuse it never happens.
- A stop that finds its sandbox already stopped, or that cannot write its marker, is undone by a start that is still
  settling (`StopOfStoppedIsUndone`, `UnmarkedStopIsUndone`); a stop can be undone exactly when it left no marker
  (`UndoneIffUnmarked`).
- A create whose wait times out lets go of its volume guard while LXD still creates the instance, and LXD may then not find
  a volume (`TimedOutCreateLosesVolume`). It can, exactly when one of those it needs is auxiliary, in the project and not
  kept by the clean-ups to come (`LetGoCanLoseIff`): that another sandbox uses the volume helps only while that one stays
  (`LetGoCanLoseIffUnused`).
- Subscribing before the reconcile check (crates/lxd-client/src/operations.rs:54-55) closes the race with a finishing
  operation except when that check fails with a transport error, which counts as pending (`TransientReadLosesCompletion`;
  `NoLostCompletion` says exactly when).
- An import given up after its upload leaves an image without aliases, which clean-up never removes
  (`GivenUpUploadStays`): exactly when no alias points at it by then (`LeftBehindIffGivenUp`).
- A driver takes another driver's current image for stale exactly when its alias prefix is the other's prefix followed by
  the current revision (`OtherDriversAlias`).

## Model

| member | source | states |
|---|---|---|
| Watch.Reconcile | crates/openshell-driver-lxd/src/watcher.rs:145-165 | known names that both listings omit are dropped and their ids returned, one each; everything listed becomes known, later listings winning |
| Watch.Retain | crates/openshell-driver-lxd/src/watcher.rs:150-158 | the retain loop keeps exactly the names one of the listings has, and returns the ids of the others in the order met |
| Watch.SeededIsListed | crates/openshell-driver-lxd/src/watcher.rs:145-165 | after a reconcile the watcher knows exactly what the two listings say, the second winning; what it knew before decides only who is reported |
| Watch.InvStep | crates/openshell-driver-lxd/src/watcher.rs:168-260 | every step of LXD, the watcher and the gateways keeps the invariant: a snapshot is current, or its event is still in one of the queues, or the change is on record as missed |
| Watch.InvRun | crates/openshell-driver-lxd/src/watcher.rs:111-126 | the invariant holds after any run, over any number of reconnects |
| Watch.ConsumeKeepsPending | crates/openshell-driver-lxd/src/watcher.rs:195-225 | taking one event off the stream, or dropping it as a repeat, loses no other announcement |
| WatchConvergence.ViewCurrentOrPending | crates/openshell-driver-lxd/src/grpc.rs:249-298 | in every reachable state a gateway that has not lagged holds the current state of each sandbox or has an announcement pending, save for changes on record as missed; once drained, it holds it |
| WatchConvergence.WatchConverges | crates/openshell-driver-lxd/src/grpc.rs:276-297 | within one LXD subscription, for a gateway that connects later or has missed no change of the sandbox, whatever other gateways there are: short of a broken stream, a failed read of this sandbox, an unheard change of its configuration and lagging, once drained it holds the current state |
| WatchConvergence.MissedOnlyByLoss | crates/openshell-driver-lxd/src/watcher.rs:230-236 | a change is missed only by a broken stream, a failed read, because nobody was subscribed, because it changed the configuration only, or because a read it outdated is published |
| WatchConvergence.GapLeavesStaleSnapshot | crates/openshell-driver-lxd/src/watcher.rs:184-191 | from every current state, a change during a gap leads to a drained gateway with a stale snapshot |
| WatchConvergence.PatchLeavesStaleSnapshot | crates/openshell-driver-lxd/src/watcher.rs:34-42 | on a live stream, from every current state, a change of configuration that a snapshot shows leads to a drained gateway with a stale snapshot |
| WatchConvergence.UnheardChangeNeverSeen | crates/openshell-driver-lxd/src/watcher.rs:176-191 | after a change that nobody was subscribed to or that no watched action announces, a gateway that was current is so again, over any reconnects, exactly if the change led back to the same state |
| WatchConvergence.UnannouncedStaysAsSeen | crates/openshell-driver-lxd/src/watcher.rs:184-191 | once nothing on the way is about a sandbox, a gateway holds its current state after any number of reconnects exactly if it holds it now |
| WatchDeletions.DeletionConservation | crates/openshell-driver-lxd/src/watcher.rs:145-219 | over any run, what was recorded under a name is still known, was published as deleted, or the name was recorded again |
| WatchDeletions.ReconcileReportsOmitted | crates/openshell-driver-lxd/src/watcher.rs:145-184 | a reconcile sets out to publish an id exactly when it is known under a name that both listings omit |
| WatchDeletions.ReconcilePublishesOmitted | crates/openshell-driver-lxd/src/watcher.rs:184-191 | once the reconcile is through, every such id has been published, and every gateway open at the time has the deletion or lagged |
| WatchDeletions.SetOutIsSent | crates/openshell-driver-lxd/src/watcher.rs:184-219 | whatever the watcher sets out to report has reached every gateway open at the time once it is through |
| WatchDeletions.DriverDeletionIsSent | crates/openshell-driver-lxd/src/grpc.rs:229-237 | a DeleteSandbox call sends its deletion to every gateway open at the time, which has it through every later run or lagged, whether or not the watcher recorded the sandbox |
| WatchDeletions.NoLiveSandboxReportedDeleted | crates/openshell-driver-lxd/src/watcher.rs:207-219 | while names are not reused, no gateway is ever told that an existing sandbox was deleted, over any number of reconnects |
| WatchDeletions.ReuseReportsLiveSandbox | crates/openshell-driver-lxd/src/watcher.rs:207-243 | with name reuse it happens: the run, from any state with a read due |
| WatchRemovals.RemovalReportedIff | crates/openshell-driver-lxd/src/watcher.rs:168-257 | whether a removal is reported once the watcher has caught up on the same connection, in both directions and however names were reused before: for removals while disconnected, after the first listing, after subscribing and on the live stream |
| WatchRemovals.UnreadRemovalUnreported | crates/openshell-driver-lxd/src/watcher.rs:225-236 | a sandbox listed to a gateway and removed before the watcher reads it: the run in which all drains and no deletion was sent |
| WatchRemovals.RemovalBetweenListingAndSubscribing | crates/openshell-driver-lxd/src/watcher.rs:176-182 | a sandbox removed between the first listing and the subscription: the run in which the watcher catches up without reporting it and its next reconnect does |
| WatchRemovals.LiveSandboxReportedIff | crates/openshell-driver-lxd/src/watcher.rs:207-219 | whatever names are reused, the watcher sets out to report an existing sandbox exactly when it takes an unseen deletion of a name it has recorded for that sandbox |
| WatchOutcomes.ConnectionCatchesUp | crates/openshell-driver-lxd/src/watcher.rs:168-191 | a connection made while nothing changes ends live on an empty stream and memory, knowing exactly the sandboxes there are and having reported exactly those known that are gone |
| WatchOutcomes.EventReachesGateways | crates/openshell-driver-lxd/src/watcher.rs:195-257 | an unseen event of a sandbox: it is read and recorded, and every gateway with room gets its present state last in its queue |
| WatchOutcomes.DeletionReachesGateways | crates/openshell-driver-lxd/src/watcher.rs:207-219 | an unseen deletion of a recorded sandbox: the record goes and every gateway with room gets the deletion last in its queue |
| WatchOutcomes.CallShowsAll | crates/openshell-driver-lxd/src/grpc.rs:249-298 | a call made while nothing changes streams after a snapshot of exactly the sandboxes there are |
| WatchOutcomes.NewConnectionForgetsEvents | crates/openshell-driver-lxd/src/watcher.rs:193-199 | an event repeated on a new connection is handled again |
| WatchOutcomes.LaggingLosesOldest | crates/openshell-driver-lxd/src/grpc.rs:253-274 | a receiver 64 events behind loses the oldest and knows that it lagged |
| RecentEvents.RecentEvents.constructor | crates/openshell-driver-lxd/src/watcher.rs:59-62 | starts with nothing remembered |
| RecentEvents.RecentEvents.FirstSighting | crates/openshell-driver-lxd/src/watcher.rs:66-76 | tells whether the event is remembered, remembers it and forgets the oldest beyond 64 |
| RecentEvents.Forward | crates/openshell-driver-lxd/src/watcher.rs:193-199 | the loop forwards exactly the accepted events of the specification |
| RecentEvents.MemoryIsRecentAccepted | crates/openshell-driver-lxd/src/watcher.rs:66-76 | after any events the memory is the last min(64, n) accepted ones, without repeats |
| RecentEvents.ExactWithinWindow | crates/openshell-driver-lxd/src/watcher.rs:193-199 | what is forwarded is the input with later repeats erased if and only if every repeat comes within the window |
| Events.NameHoweverGiven | crates/openshell-driver-lxd/src/watcher.rs:86-99 | an event's instance name is the same whether given by name, by source path, or by source path with a project query |
| Events.HandledByAction | crates/openshell-driver-lxd/src/watcher.rs:200-225 | however it is named, an instance is forgotten exactly on its deletion, read again exactly on a watched action, and ignored otherwise |
| Lifecycle.MutualExclusion | crates/openshell-driver-lxd/src/driver.rs:614-620 | over all interleavings of stop, delete and settle, at most one task per name does guarded work, although deletes remove locks from the table |
| Lifecycle.CountOfTwoIsAlone | crates/openshell-driver-lxd/src/driver.rs:1011-1016 | a reference count of at most two, read by the deleting task, means no other task has the lock or waits for it |
| Lifecycle.InvStep | crates/openshell-driver-lxd/src/driver.rs:905-1018 | every step keeps the lock table, the guarded sections and the settling starts consistent |
| Lifecycle.SettleStartsOnlyUnmarked | crates/openshell-driver-lxd/src/driver.rs:736-782 | settling starts an instance only after reading it under the lock as stopped, unmarked and carrying the expected id, while it is unmarked, and at most `start_retries` times |
| Lifecycle.RecordedStopNotUndone | crates/openshell-driver-lxd/src/driver.rs:767-771 | while the stop marker stays set, no settling start starts the instance |
| Lifecycle.StopOfStoppedIsUndone | crates/openshell-driver-lxd/src/driver.rs:909-912 | a stop of a stopped sandbox returns and a settling start then starts it: the run, from any such state |
| Lifecycle.UnmarkedStopIsUndone | crates/openshell-driver-lxd/src/driver.rs:708-717 | a stop that could not write its marker stops the sandbox and a settling start then starts it: the run, from any such state |
| Lifecycle.UndoneIffUnmarked | crates/openshell-driver-lxd/src/driver.rs:736-782 | when a stop has returned and a start is still settling, the start can undo it before a marker is cleared exactly when the stop left no marker |
| LifecycleOutcomes.StopLooks | crates/openshell-driver-lxd/src/driver.rs:909-912 | a stop goes on exactly with a sandbox of the driver that is not stopped, and otherwise returns without a change |
| LifecycleOutcomes.StopSucceeds | crates/openshell-driver-lxd/src/driver.rs:905-963 | a stop that runs through leaves the sandbox stopped, and marked if the marker could be written, and nothing else changed |
| LifecycleOutcomes.StopFails | crates/openshell-driver-lxd/src/driver.rs:948-961 | a stop whose requests fail takes its marker back |
| LifecycleOutcomes.RecordedStopHolds | crates/openshell-driver-lxd/src/driver.rs:708-717 | from the write of a stop marker until something clears it, in every run, no settling start starts the sandbox and none can |
| LifecycleOutcomes.MarkStays | crates/openshell-driver-lxd/src/driver.rs:719-725 | a marker goes exactly by a failed stop, the removal of the instance or someone outside the lock |
| LifecycleOutcomes.SettleAttempt | crates/openshell-driver-lxd/src/driver.rs:742-780 | one attempt starts the sandbox exactly when it reads it as its own, stopped and unmarked; then it runs and an attempt is used up |
| LifecycleOutcomes.DeleteRemoves | crates/openshell-driver-lxd/src/driver.rs:975-1010 | a delete stops the sandbox and removes it |
| LifecycleOutcomes.DeleteForgetsLock | crates/openshell-driver-lxd/src/driver.rs:1011-1016 | a delete takes the lock out of the table exactly when no other task has it |
| LifecycleOutcomes.DeleteOfOthers | crates/openshell-driver-lxd/src/driver.rs:975-986 | a delete of what is not there or not the driver's changes nothing |
| LifecycleOutcomes.NextGetsIn | crates/openshell-driver-lxd/src/driver.rs:906-907 | while one task has the guard another waits, and gets in once it is dropped |
| Volumes.VolumesThereWhenIssued | crates/openshell-driver-lxd/src/driver.rs:497-576 | when an instance creation is issued, and until its guard goes, all its volumes exist and are shifted, whatever clean-up and other creates do |
| Volumes.AttachedUnderGuard | crates/openshell-driver-lxd/src/driver.rs:561-576 | while the create still waits, LXD finds all the volumes of its instance |
| Volumes.CleanUpNeverRacesCreation | crates/openshell-driver-lxd/src/driver.rs:164-180 | clean-up only removes unused, unkept auxiliary volumes of its project, and only while no create holds a guard |
| Volumes.CreatesStep | crates/lxd-client/src/storage.rs:269-321 | probing, creating, probing again after a lost race and shifting keep every create's volumes ensured as far as it has come |
| Volumes.GuardStep | crates/openshell-driver-lxd/src/gc.rs:76-86 | what clean-up has listed for removal is auxiliary, in the project and not kept, and no create holds a guard meanwhile |
| VolumesReleased.TimedOutCreateLosesVolume | crates/openshell-driver-lxd/src/driver.rs:575-576 | from any state with the creation issued and a needed volume that is not spared: the run in which the create stops waiting, the volume falls out of use, clean-up removes it and LXD, creating the instance, does not find it |
| VolumesReleased.LetGoCanLoseIff | crates/openshell-driver-lxd/src/driver.rs:564-576 | a create that stops waiting can lose a volume exactly when one of those it needs is auxiliary, in the project and not kept by the clean-ups to come |
| VolumesReleased.LetGoCanLoseIffUnused | crates/openshell-driver-lxd/src/driver.rs:564-576 | in runs in which no instance using a volume goes, exactly when such a volume is also unused at that moment |
| VolumesOutcomes.CreateRunsThrough | crates/openshell-driver-lxd/src/driver.rs:497-576 | a create that runs through leaves every needed volume existing, shifted and in use by its instance, and every other volume as it was |
| VolumesOutcomes.EnsuresVolume | crates/lxd-client/src/storage.rs:269-321 | a volume that exists is kept and made shifted, one that does not is created |
| VolumesOutcomes.LostRace | crates/lxd-client/src/storage.rs:295-314 | after a failed creation a volume that exists now counts, and otherwise the create fails |
| VolumesOutcomes.CleanUpPicks | crates/openshell-driver-lxd/src/gc.rs:76-86 | clean-up picks exactly the unused auxiliary volumes of its project in the pool that are not to be kept |
| VolumesOutcomes.AuxiliaryNames | crates/openshell-driver-lxd/src/mapping.rs:99-108 | a volume is auxiliary exactly if it is named after a supervisor's or DHCP client's digest |
| VolumesOutcomes.CleanUpRunsThrough | crates/openshell-driver-lxd/src/gc.rs:142-170 | a clean-up that runs through removes such a volume and nothing else, and lets creates in again |
| Aliases.StaleIffOlder | crates/openshell-driver-lxd/src/gc.rs:63-74 | exactly the aliases `<prefix>r<N>-<digest>` with N below the current revision, and the revision-less `<prefix><digest>`, are judged older |
| Aliases.RevisionDecides | crates/openshell-driver-lxd/src/gc.rs:60-74 | of the aliases drivers print, those of a lower revision with a full digest are stale and no others, whatever the digest |
| Aliases.CurrentNeverStale | crates/openshell-driver-lxd/src/image.rs:97-100 | no alias of the current revision is judged stale |
| Aliases.AliasInjective | crates/openshell-driver-lxd/src/image.rs:87-100 | two digests share an alias exactly when they differ in the `sha256:` at most |
| Aliases.OtherDriversAlias | crates/openshell-driver-lxd/src/gc.rs:63-74 | when another driver's current alias is judged stale, in both directions |
| Aliases.CacheAliasText | crates/openshell-driver-lxd/src/image.rs:93-100 | the alias is the prefix, `r3-` and the digest without `sha256:` |
| Aliases.NumbersParse | crates/openshell-driver-lxd/src/gc.rs:68-72 | a revision is digits with or without a plus sign, and nothing else |
| Aliases.DigestsAre | crates/openshell-driver-lxd/src/gc.rs:67-67 | a full digest is 64 hexadecimal digits of either case |
| ImageCache.OneImportPerAlias | crates/openshell-driver-lxd/src/image.rs:480-504 | over all interleavings of resolves, clean-ups and other users, at most one import per alias succeeds and its alias exists from then on |
| ImageCache.ImportsDoNotCollide | crates/openshell-driver-lxd/src/image.rs:486-494 | two resolves of one alias never import at once, and an import finds its alias taken only by another user of LXD |
| ImageCache.ResolvedAliasStays | crates/openshell-driver-lxd/src/image.rs:496-503 | an alias a resolve returned exists and points at the same image in every later state |
| ImageCache.CleanUpSparesImports | crates/openshell-driver-lxd/src/gc.rs:101-130 | clean-up never removes an image that is being imported or has an alias of the current revision |
| ImageCache.CleanUpFindsOldImages | crates/openshell-driver-lxd/src/gc.rs:51-58 | clean-up finds every image of the project all of whose aliases are of older revisions |
| ImageCache.ImageOkStep | crates/openshell-driver-lxd/src/image.rs:868-917 | through upload, binding, a lost reply and discarding, an import's image is there, is its own, is in no clean-up's list and has at most its own alias |
| ImageCache.GivenUpUploadStays | crates/openshell-driver-lxd/src/image.rs:868-917 | an uploaded image that no alias points at when its import is given up, wherever that is, stays in LXD through every later run |
| ImageCache.LeftBehindIffGivenUp | crates/openshell-driver-lxd/src/image.rs:868-917 | an import that has uploaded its image and ends leaves it behind without an alias exactly when it is given up and no alias points at the image |
| ImageCache.WhenNothingPoints | crates/openshell-driver-lxd/src/image.rs:882-896 | an alias points at an import's image only if it is its own, bound by a request that seemed to fail |
| ImageCache.CleanUpStaysInProject | crates/openshell-driver-lxd/src/gc.rs:51-58 | in every run clean-up removes no image of another project |
| ImageCacheOutcomes.CacheHit | crates/openshell-driver-lxd/src/image.rs:496-499 | a cache hit ends the resolve well and touches nothing |
| ImageCacheOutcomes.CacheMiss | crates/openshell-driver-lxd/src/image.rs:501-503 | a cache miss uploads an image without alias, binds the alias to it and ends well, and nothing else changes |
| ImageCacheOutcomes.SecondFindsImport | crates/openshell-driver-lxd/src/image.rs:486-499 | the second of two resolves of an alias waits while the first imports and then finds the import |
| ImageCacheOutcomes.RefusedAliasIsUndone | crates/openshell-driver-lxd/src/image.rs:895-912 | after a refused alias the image is found without aliases and goes to be removed |
| ImageCacheOutcomes.DiscardRemovesImage | crates/openshell-driver-lxd/src/image.rs:907-912 | removing it takes the image and nothing else, and the resolve fails |
| ImageCacheOutcomes.LandedAliasIsKept | crates/openshell-driver-lxd/src/image.rs:905-906 | an alias bound although the request seemed to fail is kept with its image |
| ImageCacheOutcomes.CleanUpRemovesStale | crates/openshell-driver-lxd/src/gc.rs:107-130 | clean-up lists exactly the stale images, and removing one takes its aliases with it and nothing else |
| Operations.DrainStream | crates/lxd-client/src/operations.rs:72-112 | the inner loop stops at the first frame that decides, and passes over all before it |
| Operations.ResultIsRight | crates/lxd-client/src/operations.rs:50-148 | a wait returns an operation only if it is the successful one, and a failure only of one that failed, was cancelled or had an error |
| Operations.NoLostCompletion | crates/lxd-client/src/operations.rs:53-69 | while draining, a finished operation has a decisive frame ahead, except exactly when it had finished before the stream opened, the reconcile read nothing and the stream goes on |
| Operations.TransientReadLosesCompletion | crates/lxd-client/src/operations.rs:145-145 | that exception happens to every finished operation whose first read fails in transport |
| Operations.DrainsToDecision | crates/lxd-client/src/operations.rs:65-112 | otherwise the drain loop leaves the stream on the frames at hand, with a verdict that agrees with the operation |
| Operations.InvStep | crates/lxd-client/src/operations.rs:50-202 | every step of the waiter, its REST fallback and the server keeps events truthful and completions ahead |
| Operations.ReadReturnsWhatItShows | crates/lxd-client/src/operations.rs:129-148 | a read returns what it shows: success the operation, failure, cancellation or an error text a failure, otherwise the wait goes on; a transport error never ends it |
| Operations.LongPollReturnsWhatItShows | crates/lxd-client/src/operations.rs:153-172 | the fallback's long poll likewise, with an error text a failure even of a success |
| Operations.FetchReturnsSuccess | crates/lxd-client/src/operations.rs:85-89 | in every run the read after the event of a success returns the operation |
| Operations.DrainLeadsOn | crates/lxd-client/src/operations.rs:72-112 | each frame leads on as it should: success to the read, failure to a failure, the end to a reconcile, anything else to the next frame |
| Operations.OtherErrorOnlyFor | crates/lxd-client/src/operations.rs:56-110 | a wait ends with another error exactly for a refused subscription or stream, a final error reply or a fetch that read nothing |
| Operations.EventWaitReturns | crates/lxd-client/src/operations.rs:50-112 | an operation that finishes after the subscription is returned as it finished |
| Operations.NamedEitherWay | crates/lxd-client/src/operations.rs:75-81 | an event names the operation by its bare id or its path |
| Cidr.PublicCidrs | crates/openshell-driver-lxd/src/egress.rs:106-152 | for any excluded blocks: aligned, ascending, disjoint blocks covering an address exactly when no excluded block does, and no CIDR family with the same union has fewer members |
| Cidr.SubtractBlock | crates/openshell-driver-lxd/src/egress.rs:110-129 | taking one block out of separated ranges leaves separated ranges with exactly the other addresses |
| Cidr.LastAddress | crates/openshell-driver-lxd/src/egress.rs:109-111 | the last address of any block stays below 2^33, so the arithmetic in u64 is exact |
| Cidr.LargestBlock | crates/openshell-driver-lxd/src/egress.rs:134-145 | the trailing-zeros start and the halving loop give the largest aligned block that begins at `start` and ends by `end` |
| Cidr.AlignedSize | crates/openshell-driver-lxd/src/egress.rs:134-140 | the starting size is a power of two of at most 2^32 that `start` is aligned to, and no larger aligned block starts there and fits |
| Cidr.SplitRange | crates/openshell-driver-lxd/src/egress.rs:132-150 | a range is covered exactly by ascending aligned blocks, each maximal in the whole space |
| Cidr.TrailingZerosAlign | crates/openshell-driver-lxd/src/egress.rs:134-140 | 2^k divides a positive number exactly when k is at most its trailing zeros |
| Cidr.MaximalIsMinimal | crates/openshell-driver-lxd/src/egress.rs:131-150 | disjoint maximal blocks are the fewest of any CIDR family with their union |
| Cidr.DivisionUnique | crates/openshell-driver-lxd/src/egress.rs:131-150 | a set of addresses has only one division into ascending maximal blocks |
| Egress.Rules | crates/openshell-driver-lxd/src/egress.rs:67-94 | the rules let a packet through exactly when it is TCP to a listed address and port or goes to a public address |
| Egress.RulesFor | crates/openshell-driver-lxd/src/egress.rs:67-94 | the same for any table of non-public IPv4 blocks; a table that leaves no address would let everything through, since an empty destination matches any |
| Egress.TableLeavesSome | crates/openshell-driver-lxd/src/egress.rs:39-55 | the driver's table is not such a table |
| Egress.RulesLayout | crates/openshell-driver-lxd/src/egress.rs:67-94 | one TCP rule per port in ascending order, then the public IPv4 and IPv6 rules, all enabled allow rules with their descriptions |
| Egress.NonPublicIs | crates/openshell-driver-lxd/src/egress.rs:36-55 | the table covers exactly the fifteen ranges written out |
| Egress.AddressesAt | crates/openshell-driver-lxd/src/egress.rs:96-101 | the addresses of one port as text, in order, each once |
| Egress.PortsOf | crates/openshell-driver-lxd/src/egress.rs:71-73 | the ports of the gateway in order, each once |
| Egress.RulesMean | crates/openshell-driver-lxd/src/egress.rs:67-94 | any rules of that shape, read back from their text, let through exactly the intended packets, unless the table leaves no IPv4 address |
| Egress.Public4RuleMatches | crates/openshell-driver-lxd/src/egress.rs:86-89 | the IPv4 rule, read back from its text, matches exactly the addresses outside the table, or everything when there are none |
| Egress.RulesCanonical | crates/openshell-driver-lxd/src/egress.rs:70-94 | two gateways get equal rules if and only if they have the same endpoints |
| Egress.SecondEnsureWritesNothing | crates/lxd-client/src/acls.rs:117-183 | ensuring the ACL again for the same endpoints writes nothing, whatever runs beside it |
| RuleMatching.BlockNames | crates/openshell-driver-lxd/src/egress.rs:145-147 | a block written as `address/prefix` and read back names exactly its own addresses |
| RuleMatching.PublicBlockNames | crates/openshell-driver-lxd/src/egress.rs:57-59 | `2000::/3` read back names exactly the global unicast IPv6 addresses |
| IpText.ReadBack | crates/openshell-driver-lxd/src/egress.rs:96-101 | every address reads back from its text, so different addresses have different texts |
| IpText.Show4Text | crates/openshell-driver-lxd/src/egress.rs:145-147 | an IPv4 address is written as its four octets |
| Sorting.PrecedesIs | crates/openshell-driver-lxd/src/egress.rs:98-98 | texts are ordered by the first character that differs, a beginning first |
| IpText.Show6Text | crates/openshell-driver-lxd/src/egress.rs:96-101 | an IPv6 address is written with the first of its longest runs of two or more zero words left out, or with its mapped IPv4 address dotted |
| Acls.ToJson | crates/lxd-client/src/acls.rs:62-79 | the loop that drops unset fields writes JSON from which the rule reads back |
| Acls.RuleBack | crates/lxd-client/src/acls.rs:60-79 | leaving out empty fields loses nothing |
| Acls.GatewayRuleJson | crates/lxd-client/src/acls.rs:62-79 | the gateway rule's JSON, written out |
| Acls.PublicRuleJson | crates/lxd-client/src/acls.rs:62-79 | a public rule's JSON leaves out protocol and port |
| Acls.MatchesIffWanted | crates/lxd-client/src/acls.rs:206-217 | the comparison holds exactly when LXD has the wanted description and rules, whatever else it returns |
| Acls.WantedInjective | crates/lxd-client/src/acls.rs:122-137 | different rules give different ACLs |
| AclSync.OkMeansExact | crates/lxd-client/src/acls.rs:138-183 | a call ends well only at a moment when LXD has exactly its rules, and touches no other ACL |
| AclSync.AgreedRulesStay | crates/lxd-client/src/acls.rs:107-116 | when callers agree, LXD has the rules from the first success on, through every interleaving of gets, creates, conflicts and updates |
| AclSync.LaterCallWritesNothing | crates/lxd-client/src/acls.rs:143-148 | a call made after a success for the same rules never writes |
| AclSync.CreatesMissing | crates/lxd-client/src/acls.rs:155-165 | a call that finds no ACL creates it with exactly its rules |
| AclSync.ReplacesOther | crates/lxd-client/src/acls.rs:143-154 | a call that finds the ACL replaces it unless it already has exactly these rules |
| AclSync.LostRaces | crates/lxd-client/src/acls.rs:166-177 | a call that loses the race to create replaces instead; one whose ACL is gone fails without writing |
| Symlinks.ResolveDirectory | crates/openshell-driver-lxd/src/image.rs:1245-1282 | the walk succeeds with the one place and link count that chroot-style resolution gives, with no link on the way; it fails only if more than 40 links are needed |
| Symlinks.ResolveInRootfs | crates/openshell-driver-lxd/src/image.rs:1230-1285 | for every tree and path: no file name is refused as such, success exactly within 40 links, the same place as the reference, and no symlink on the way to the parent |
| Symlinks.ResolvesConcat | crates/openshell-driver-lxd/src/image.rs:1272-1274 | resolving two paths one after the other is resolving their concatenation, with the links added up |
| Symlinks.FollowLink | crates/openshell-driver-lxd/src/image.rs:1257-1274 | putting a link's target in front of what is pending, from the root if absolute, keeps the meaning of the path |
| Symlinks.LoopNeverResolves | crates/openshell-driver-lxd/src/image.rs:1257-1262 | a link to itself resolves with no number of links |
| Symlinks.ParentSteps | crates/openshell-driver-lxd/src/image.rs:1276-1278 | `..` leaves a directory and stays at the root |
| Symlinks.PlainSteps | crates/openshell-driver-lxd/src/image.rs:1249-1281 | `.` and the root leave the position, and a name that is no link is entered whether it exists or not |
| Symlinks.LinkSteps | crates/openshell-driver-lxd/src/image.rs:1263-1274 | an absolute target continues from the image's root, a relative one from the link's directory |
| OwnerRecord.ReadVarint | crates/openshell-driver-lxd/src/image.rs:124-140 | reads exactly the varints of up to six bytes, with their value, below 2^42 |
| OwnerRecord.DecodeRootlessOwner | crates/openshell-driver-lxd/src/image.rs:115-151 | gives an owner exactly for well-formed records, and the one they mean, the last field of a kind winning |
| OwnerRecord.NotDecodable | crates/openshell-driver-lxd/src/image.rs:121-141 | another wire type, a cut-off or overlong varint and a value beyond 32 bits mean nothing |
| OwnerRecord.DecodesUnique | crates/openshell-driver-lxd/src/image.rs:115-151 | a record means one owner at most |
| OwnerRecord.OwnerRoundTrip | crates/openshell-driver-lxd/src/image.rs:111-151 | all 32-bit ids, in either order, padded to any length up to six bytes, zero fields left out or not, decode to themselves, with 2^32-1 read as 0 |
| OwnerRecord.RecordOfThousand | crates/openshell-driver-lxd/src/image.rs:115-151 | the record of user and group 1000, byte by byte |
| OwnerRecord.LastFieldWins | crates/openshell-driver-lxd/src/image.rs:143-147 | the last field of a kind counts, and other kinds count for nothing |
| Ownership.PseudoQuote | crates/openshell-driver-lxd/src/image.rs:196-207 | the loop gives the quoted path of the specification |
| Ownership.UnquoteBack | crates/openshell-driver-lxd/src/image.rs:196-207 | unquoting a quoted path gives the path, for all bytes |
| Ownership.LineBack | crates/openshell-driver-lxd/src/image.rs:259-263 | a line parses back to its path, octal mode and decimal ids |
| Ownership.LinesBack | crates/openshell-driver-lxd/src/image.rs:259-264 | the written lines parse back to the records in order |
| Ownership.ReadOwner | crates/openshell-driver-lxd/src/image.rs:155-188 | the recorded owner, root without a record, and an error for a malformed or overlong one |
| Ownership.VisitDirectory | crates/openshell-driver-lxd/src/image.rs:239-265 | one turn moves exactly the directory's own records to the output and queues exactly its subdirectories |
| Ownership.WriteOwnership | crates/openshell-driver-lxd/src/image.rs:219-271 | succeeds exactly when every nameable entry has a readable owner; then every entry is visited once, the text parses back to exactly one record per newline-free path, and the count is their number |
| Ownership.PathsAreDistinct | crates/openshell-driver-lxd/src/image.rs:236-265 | in a tree with distinct sibling names no two records share a path, so the records are a map |
| Ownership.RecordSays | crates/openshell-driver-lxd/src/image.rs:248-263 | a record holds the path from the root, the twelve permission bits and the recorded uid and gid, root without a record |
| Ownership.EntryIsRecorded | crates/openshell-driver-lxd/src/image.rs:239-265 | every entry of a directory with a nameable path is recorded, and everything below it |
| Ownership.UnreadableOwner | crates/openshell-driver-lxd/src/image.rs:162-187 | an owner is unreadable exactly if its record is longer than 64 bytes or malformed |
| Ownership.LineText | crates/openshell-driver-lxd/src/image.rs:261-263 | a line, written out |
| Ownership.EscapeText | crates/openshell-driver-lxd/src/image.rs:196-207 | quotes and backslashes are escaped by a backslash, everything else stands for itself |
| Multipart.RoundTrip | crates/lxd-client/src/split_image_body.rs:42-90 | a reader following section 5.1.1 of RFC 2046 recovers exactly the two named parts if and only if neither content holds what it takes for a delimiter: for a lenient reader the delimiter with its line break, for a strict one also the dash-boundary at the very start |
| Multipart.BodyText | crates/lxd-client/src/split_image_body.rs:50-77 | preamble and closing, written out |
| SplitBody.SplitImageBody.constructor | crates/lxd-client/src/split_image_body.rs:42-90 | starts at the preamble, with the total that `size_hint` gives |
| SplitBody.SplitImageBody.PollFrame | crates/lxd-client/src/split_image_body.rs:97-154 | the loop over the fields and the read buffer does one step of the specification |
| SplitBody.SplitImageBody.SizeHint | crates/lxd-client/src/split_image_body.rs:160-162 | the exact total, whatever has been sent |
| SplitBody.Streaming | crates/lxd-client/src/split_image_body.rs:97-162 | for every file and schedule, sent plus unsent equals `size_hint`; what is sent is a prefix of the body; the end means the whole body, and a file that is too short never gets there |
| SplitBody.Answers | crates/lxd-client/src/split_image_body.rs:97-154 | what each poll answers: the end only after the closing frame, pending, failed and short reads as such, otherwise the next frame |
| SplitBody.EndsExactlyWhenSent | crates/lxd-client/src/split_image_body.rs:97-154 | in every run a poll answers with the end exactly when the whole body has gone out, and as pending or failed exactly on such a read of the rootfs |
| SplitBody.FrameSizes | crates/lxd-client/src/split_image_body.rs:117-140 | one poll: a rootfs frame holds the next bytes of the file; a read at the end of a short file is an error; anything but a frame changes nothing |
| SplitBody.RootfsFrames | crates/lxd-client/src/split_image_body.rs:117-137 | in every run each rootfs frame has 1 to 262144 bytes |
| SplitBody.StreamingCompletes | crates/lxd-client/src/split_image_body.rs:97-154 | with a long enough file, the end is reached once more than length + 3 reads gave something, whatever pending polls and errors come between |
| SplitBody.StreamedUploadReadsBack | crates/lxd-client/src/split_image_body.rs:42-154 | however it was chunked, a finished upload reads back as its two parts |

## Left out

- HTTP, TLS, WebSocket and certificate handling, JSON envelopes and the proto definitions: LXD is an abstract server whose replies and errors are steps.
- Subprocesses of the importer (skopeo, umoci, mksquashfs, tar, xz): an import is its upload and its alias.
- SHA-256, the image reference syntax and URL parsing: digests and fingerprints are opaque; an upload's fingerprint is taken to be new to LXD and to any clean-up in progress.
- Real time: sleeps, timeouts and retry intervals are steps that may come at any moment. Whether the REST fallback, a reconnect or a retry comes soon is not modelled.
- Requests that take effect after their caller has given up, except the two where it matters: LXD creating an instance whose create no longer waits, and an alias bound although the reply was lost. Any other timed-out request has taken effect or never does.
- Other users of LXD who remove images, aliases or volumes that the driver uses, or who give an alias to an image a clean-up has listed.
- The step `ListAgain` of `Watch` lets a listing read any of its instances again; the driver does so only for those it found stopped, so the model has more runs.
- What a snapshot shows of an instance is one value, standing for its status and stop marker; the tables that turn it into conditions (mapping.rs) are finite case tables.
- The locks that serialize provisioning of one volume, and the lock around supervisor extraction: leaving them out only adds interleavings.
- The `Collected` counters, log messages, and the host side of clean-up (`collect_host`).
- Symlinks.ResolveInRootfs: the split of a path into components is the standard library's and taken as given, and a link that cannot be read although it exists is not modelled.
- Ownership.WriteOwnership: errors of the file system itself (a directory that cannot be read, a full disk) are not modelled; the order within a directory is that of the listing.
- IPv6 zone ids and flow labels, which the rules do not use; LXD's reading of a rule is modelled for single addresses, CIDRs, ports and port ranges.
- `delete_network_acl`, networks, projects, GPU and device maps, CPU and memory quantities, the static-ELF check, configuration and error-to-status mapping: short or finite, and without shared state.
