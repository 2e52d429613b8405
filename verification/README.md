# awg-mesh: a verified model of its core

The project models the parts of `awg-mesh` that carry its hard guarantees and proves those guarantees for every
input, every run and every interleaving. `dafny verify dfyconfig.toml` checks all of it.

| file | what it models |
|---|---|
| `Ledger.dfy` | the ownership ledger: which master owns each overlay address, with entry and ledger versions |
| `Drain.dfy` | moving a master's overlays away, as a loop and as a race with other ledger writers |
| `Fanout.dfy` | the broadcasters: bounded channels, slow consumers dropped, subscription ids |
| `OwnershipStream.dfy` | the whole ownership protocol: mutations, listener calls that overtake each other, one observed stream, its client |
| `Registry.dfy`, `CertLifecycle.dfy` | registered nodes, certificate rollover windows, when a certificate is issued and how long the loop waits |
| `Decommission.dfy` | taking a master out of the mesh with a round-robin hand-over |
| `PeerList.dfy`, `PeerReload.dfy` | from the ledger to peer lists, and from peer lists to WireGuard peers and routes |
| `CertFiles.dfy` | replacing a certificate and key on disk when any file operation may fail |
| `Balancer.dfy` | the weighted scheduler with health and sticky flows |
| `Sni.dfy` | reading the server name out of a TLS ClientHello, and the hostname check |
| `WgConfig.dfy` | printing and parsing WireGuard config text |
| `ISpec.dfy` | validating and executing I-spec templates |
| `Topology.dfy` | CIDR ranges, address allocation and the range checks of topology validation |
| `Audit.dfy` | the audit ring buffer |
| `Text.dfy`, `Sorting.dfy`, `Arithmetic.dfy` | shared text functions, sorting, and division lemmas |

Code that updates an object becomes a class whose methods are proved against functions on a value
(`State() == Spec(old(State()), ...)`); the theorems are about those functions and about runs of them. Each mutex
section is one step. Clocks, randomness, file faults, address parsing, certificate parsing, key text and hostname
resolution are parameters or nondeterministic choices, so every theorem holds for all of them.

## What the proofs found

- A stream takes its first snapshot before it subscribes. A mutation whose broadcast falls between the two is never
  sent to that client: `SnapshotBeforeSubscribeCanMiss` gives the run, and `StaleExactlyWhen` says that this is the
  only way for a drained client to stay behind.
- Source comments call later stream messages deltas; the code sends whole snapshots, and the model does too. A comment
  on registering again says that the registration time is refreshed; the code keeps it, as `RegisterAcceptsExactlyWhen`
  states.
- If the certificate path equals the key path plus `.bak` and a key exists, or the other way round, an update of plain
  files without any fault reports success and has deleted one of the two new files: `ClashIsReportedAsSuccess`, and
  `NoFaultInstallsExactlyWhen` gives the exact condition, which also names the directories that stand in the way.
- A rollback ignores a failed removal of a key that had no predecessor, so an error that reports no rollback problem
  can leave the new key behind. `NewKeyCanStay` gives the failing operations, and `UpdatePromised` says that this is
  the only exception.
- A certificate whose validity is no longer than the renewal lead time is accepted and is due at every moment since
  its issue: `ShortRotationIsAlwaysDue`.
- Flow keys are joined by a bar. The id of a key without bars is its own; a key without blanks that contains a bar
  shares its id with another flow: `FlowIdUniqueExactlyWhen`.
- The config parser cannot read a line of more than 65535 bytes that the printer wrote: `RoundTripExactlyWhen`.
- An I-spec that validates can still make execution panic, by asking for more bytes than can be allocated or by a
  digit range as wide as all machine integers: `ValidSpecsCanPanic`. Execution succeeds whatever is drawn exactly when
  every operation fits (`AlwaysSucceedsExactlyWhen`), and can succeed exactly when none must panic
  (`CanSucceedExactlyWhen`).
- The audit query would skip an event without a timestamp once the ring is full. No such event is ever stored unless
  the clock itself reads the unset time: `QuerySeesNewest`.

## Model

| member | source | states |
|---|---|---|
| LedgerModel.SnapshotOfIsSnapshot | pkg/control_plane/ledger.go:185-192 | the snapshot lists every entry of the ledger once, in strictly ascending key order |
| LedgerModel.SnapshotUnique | pkg/control_plane/ledger.go:185-192 | a listing with that property is unique, so a snapshot is determined by the entries alone |
| LedgerModel.RunKeepsValid | pkg/control_plane/ledger.go:86-159 | over every run of reassignments and removals each key is its entry's own overlay address, is a valid IPv4 text, and has a non-empty owner and a positive version |
| LedgerModel.ApplyAccounting | pkg/control_plane/ledger.go:86-159 | each operation changes ledger version minus the sum of entry versions by exactly the credit of what it removed |
| LedgerModel.VersionConservation | pkg/control_plane/ledger.go:86-159 | after any run the ledger version equals the sum of live entry versions plus, for every removal, the removed entry's version plus one |
| LedgerModel.ReassignWritesExactlyWhen | pkg/control_plane/ledger.go:82-127 | a write without an expected owner always happens, one with an expected owner exactly when that owner holds the overlay; it raises the version by one, records owner, reason, time, entry version and previous owner, and leaves all other entries alone; a refusal changes nothing |
| LedgerModel.ReassignRefusals | pkg/control_plane/ledger.go:86-108 | which refusal is reported for which request |
| LedgerModel.RemoveTakesOne | pkg/control_plane/ledger.go:142-159 | a removal takes exactly its own entry and is a mutation only when there was one |
| LedgerStore.SortedEntries | pkg/control_plane/ledger.go:185-192 | collecting and sorting a map's entries yields its snapshot |
| LedgerStore.LedgerObject.ReassignLocked | pkg/control_plane/ledger.go:86-127 | the write, its exact error conditions, the returned entry version, and the snapshot and version handed to the listener |
| LedgerStore.LedgerObject.RemoveLocked | pkg/control_plane/ledger.go:142-159 | removal succeeds exactly when the key exists and announces the new snapshot and version |
| LedgerStore.LedgerObject.OwnedBy | pkg/control_plane/ledger.go:163-174 | exactly one master's entries, in key order |
| LedgerStore.LedgerObject.Snapshot | pkg/control_plane/ledger.go:178-182 | the unique snapshot and the version it belongs to |
| DrainModel.DrainTakesOnlyFromSource | pkg/control_plane/ledger.go:210-233 | whatever other writers did before it, each write of a drain takes an overlay that the source owns at that moment, gives it to the chosen master and changes nothing else |
| DrainModel.MoveFate | pkg/control_plane/ledger.go:213-231 | one entry: an empty choice aborts; the source itself, or an overlay that changed owner or is gone, is passed over; otherwise it is written |
| DrainModel.AbortsExactlyWhen | pkg/control_plane/ledger.go:210-233 | over every interleaving a drain is aborted exactly by an empty choice for an entry it still had to move |
| DrainModel.DrainCountsItsWrites | pkg/control_plane/ledger.go:210-233 | over any interleaving the returned count is the number of writes the drain made |
| DrainModel.RaceIsLedgerRun | pkg/control_plane/ledger.go:86-233 | every interleaving of a drain with other writers leaves the ledger of a plain run of operations |
| DrainModel.RaceConservesVersions | pkg/control_plane/ledger.go:86-233 | so the version balance holds through the race |
| DrainModel.DrainLeavesOnlyWhatWasGiven | pkg/control_plane/ledger.go:210-233 | after a finished drain the source owns only overlays that another writer gave it meanwhile |
| DrainModel.UninterruptedDrainUpTo | pkg/control_plane/ledger.go:210-233 | without interference n steps move exactly the first n owned overlays and leave all other entries alone |
| DrainLoop.Chooser.Choose | pkg/control_plane/server.go:641-651 | the n-th call deals out master n modulo their number |
| DrainLoop.DrainEntry | pkg/control_plane/ledger.go:214-231 | one entry of the loop is one step of the race model, with its skip, abort and write cases |
| DrainLoop.Drain | pkg/control_plane/ledger.go:210-233 | the loop ends in the state, count and success flag of the step model |
| SubscriptionId.IdStringInjective | pkg/control_plane/fanout.go:153-168 | different counters give different subscription ids |
| SubscriptionId.FormatId | pkg/control_plane/fanout.go:153-168 | the digit loop and the reversal produce that id; a negative counter gives the empty text |
| FanoutModel.SubscribeKeepsValid | pkg/control_plane/fanout.go:41-55 | a new subscription never reuses an id in the map and keeps ids and open channels in one-to-one correspondence |
| FanoutModel.CancelKeepsValid | pkg/control_plane/fanout.go:48-54 | cancelling never closes a closed channel and keeps the correspondence, also when called twice |
| FanoutModel.BroadcastKeepsValid | pkg/control_plane/fanout.go:127-138 | broadcasting never sends on or closes a closed channel and keeps the correspondence |
| FanoutModel.EveryRunDelivers | pkg/control_plane/fanout.go:110-138 | in every run nothing panics; a live subscriber's received plus buffered messages are all broadcasts since it subscribed, in order; a dropped one's are a prefix of them |
| ChannelFates.SubscribeFate | pkg/control_plane/fanout.go:110-116 | a new subscription gets an open, empty channel, and nothing else changes |
| ChannelFates.CancelFate | pkg/control_plane/fanout.go:116-123 | cancelling closes and unsubscribes that channel and leaves its buffer and all others alone |
| ChannelFates.BroadcastFate | pkg/control_plane/fanout.go:127-138 | an open channel with fewer than eight buffered messages gets the message and stays open and subscribed; one with eight is closed and dropped; a closed one stays as it is |
| ChannelFates.ReceiveFate | pkg/control_plane/server.go:326-343 | a receive moves the oldest buffered message to the receiver |
| ChannelFates.ClosedOnlyWhenCancelledOrFull | pkg/control_plane/fanout.go:110-138 | over every run an open channel is closed exactly by cancelling its subscription or by a broadcast that meets eight buffered messages, and never opens again |
| Broadcaster.Broadcaster.Subscribe | pkg/control_plane/fanout.go:110-116 | the new state, a fresh id and a fresh channel |
| Broadcaster.Broadcaster.Cancel | pkg/control_plane/fanout.go:116-123 | the new state, with the close on a channel proved open |
| Broadcaster.Broadcaster.Broadcast | pkg/control_plane/fanout.go:127-138 | the loop in any map order sends to every subscriber with room, and closes and drops the others |
| ClientState.AbsorbAllHoldsNewest | pkg/clientd/agent.go:388-421 | after the messages of a stream the client holds the one with the greatest version |
| ClientState.AbsorbAllTellsNewest | pkg/clientd/agent.go:405-421 | and its list carries that message's overlays, owners, reasons and times in whole seconds, entry by entry |
| ClientState.AbsorbAllOrderFree | pkg/clientd/agent.go:388-421 | any permutation of the messages leaves the client in the same state |
| OwnershipProtocol.HistoryIsAppendOnly | pkg/control_plane/ledger.go:86-159 | a version, once reached, stands for the same ledger contents for the rest of the run |
| OwnershipProtocol.ClientHoldsLedgerSnapshot | pkg/control_plane/server.go:314-344 | in every interleaving, after the first message the client's list is exactly the ledger's snapshot at the client's version |
| OwnershipProtocol.ClientTellsLedger | pkg/control_plane/server.go:618-629 | in every interleaving the client's list tells each overlay of the ledger at its version exactly once, with that owner, reason and time in whole seconds, and nothing else |
| OwnershipProtocol.ClientVersionNeverDecreases | pkg/clientd/agent.go:388-403 | between any two points of any run the client's version does not go back |
| OwnershipProtocol.CaughtUpExactlyWhen | pkg/control_plane/server.go:314-344 | a drained client holds the newest ledger, entry by entry, exactly when that version was in its first snapshot or was broadcast after it subscribed |
| OwnershipProtocol.StaleExactlyWhen | pkg/control_plane/server.go:315-324 | once all listener calls have run, a drained client is behind exactly when the newest version's only broadcast came before its subscription |
| OwnershipProtocol.SnapshotBeforeSubscribeCanMiss | pkg/control_plane/server.go:315-324 | a run in which a connected, drained client misses an entry |
| RegistryModel.RunIsValid | pkg/control_plane/registry.go:65-253 | over every run the name and overlay indexes are inverse maps |
| RegistryModel.PendingWasGranted | pkg/control_plane/registry.go:130-154 | a pending certificate and its deadline are those of an earlier accepted grant to that node, which has not been removed since |
| RegistryModel.PinnedCertChangesOnlyByGrant | pkg/control_plane/registry.go:65-126 | a registered node's pinned certificate changes only by registering with one that an earlier grant named, before that grant's deadline, and nothing stays pending |
| RegistryModel.OneOpenReplacement | pkg/control_plane/registry.go:130-154 | while a replacement is active another certificate is refused; one is accepted only after the window closed |
| RegistryModel.ReRegistration | pkg/control_plane/registry.go:65-126 | registering with the pinned certificate keeps the pending one; with the pending one it promotes and clears it; address and registration time stay |
| RegistryLaws.RegisterAcceptsExactlyWhen | pkg/control_plane/registry.go:65-126 | exactly which registrations are accepted, and the stored record field by field: what is sent, what is kept when left empty, and what is cleared; a refusal and all other nodes are untouched |
| RegistryLaws.AllowAcceptsExactlyWhen | pkg/control_plane/registry.go:130-154 | exactly which grants are accepted, and that they set the pending certificate and its deadline only |
| RegistryLaws.ClearForgetsPending | pkg/control_plane/registry.go:157-173 | clearing forgets any pending certificate when none is named and only the named one otherwise |
| RegistryLaws.HeartbeatRefreshes | pkg/control_plane/registry.go:177-199 | a heartbeat replaces what it carries and keeps the rest |
| RegistryLaws.RemoveForgets | pkg/control_plane/registry.go:243-253 | removal forgets the node and frees its overlay, and nothing else |
| RegistryStore.RegistryObject.Register | pkg/control_plane/registry.go:65-126 | the new state and the exact error |
| RegistryStore.RegistryObject.AllowCertRollover | pkg/control_plane/registry.go:130-154 | the new state and the exact error |
| RegistryStore.RegistryObject.Remove | pkg/control_plane/registry.go:243-253 | both indexes forget the node; an unknown name is an error |
| RegistryStore.RegistryObject.MastersInRegion | pkg/control_plane/registry.go:226-240 | exactly the masters of the region (all when it is empty), once each, sorted |
| RoundRobinShares.TurnsCount | pkg/control_plane/server.go:641-651 | of n rounds dealt to m masters, master i gets n divided by m, plus one when i is below the remainder |
| Decommission.FilterOut | pkg/control_plane/server.go:631-639 | everything but the excluded name, without repeats |
| Decommission.Candidates | pkg/control_plane/server.go:361-370 | the other masters of the node's region, or all other masters when its region has none |
| Decommission.SurvivorsExactly | pkg/control_plane/server.go:361-370 | who takes over: the other masters of the node's region when there is one, all other masters otherwise |
| Decommission.GainIsTurns | pkg/control_plane/server.go:641-651 | a survivor gains exactly its round-robin share |
| Decommission.DrainHandsOver | pkg/control_plane/server.go:359-381 | draining through the round robin ends with nothing owned by the node, other entries unchanged, each moved entry one version on with the right previous owner, and gains that differ by at most one |
| Decommission.DecommissionNode | pkg/control_plane/server.go:349-397 | succeeds exactly when the node exists and owns nothing or has a survivor; then it is unregistered and handed over as above; on failure nothing changed |
| PeerList.GroupByMaster | pkg/control_plane/server.go:571-590 | groups the remote entries by owner in order of first appearance, with their routes and first overlay |
| PeerList.BuildPeerListUpdate | pkg/control_plane/server.go:565-613 | one peer per owner; a registered one carries its record's overlay, key, endpoint and protocol and a keepalive of 25 seconds, an unregistered one none of them and its first remote overlay |
| PeerList.OwnersInOrder | pkg/control_plane/server.go:576-590 | peers stand in the order in which their owners first appear |
| PeerList.RoutesExactly | pkg/control_plane/server.go:578-590 | a route stands under a name exactly when it is the /32 of an overlay that this name owns and that is not the subject's own |
| PeerList.PeerListPartitions | pkg/control_plane/server.go:565-613 | each remote overlay's /32 stands under its owner and nowhere else, names are distinct and no peer is empty |
| PeerList.RoutesDisjoint | pkg/control_plane/server.go:565-613 | a route under two peers means they are the same peer |
| PeerList.RoutesDistinct | pkg/control_plane/server.go:565-613 | no route is listed twice anywhere in the list |
| PeerList.LedgerIsPartitioned | pkg/control_plane/server.go:565-613 | the partition holds for every valid ledger, registry and subject |
| PeerReload.BuildPeerConfigs | pkg/clientd/peer_reload.go:130-152 | fails exactly when some peer has the wrong role or cannot be converted; otherwise converts all peers in order and skips exactly the key-less ones |
| PeerReload.ConvertsExactlyWhen | pkg/clientd/peer_reload.go:155-191 | exactly which peers convert, and the key, endpoint, keepalive and networks of the result |
| PeerReload.SkippedExactlyWhen | pkg/clientd/peer_reload.go:155-166 | a peer is skipped exactly when only its key is missing |
| PeerReload.ConfigsInOrder | pkg/clientd/peer_reload.go:138-151 | the configured peers are the convertible ones, in list order |
| PeerReload.SkippedInOrder | pkg/clientd/peer_reload.go:138-151 | the skipped names are those of the key-less peers, in list order |
| PeerReload.CidrParses | pkg/clientd/peer_reload.go:193-215 | a CIDR is read as its address with the host bits cleared |
| PeerReload.AddressParses | pkg/clientd/peer_reload.go:201-210 | a bare address is a network of its own |
| PeerReload.AllowedIPsStep | pkg/clientd/peer_reload.go:193-215 | blank items are skipped, a bad one fails the list, the rest are kept in order |
| PeerReload.ConversionKeepsDisjoint | pkg/clientd/peer_reload.go:130-215 | text routes that are pairwise distinct become pairwise distinct networks |
| PeerReload.OverlayIsRouted | pkg/clientd/peer_reload.go:155-191 | a remote overlay is routed to its owner's key, or the owner is reported as skipped |
| PeerReload.LedgerReachesWireGuard | pkg/clientd/peer_reload.go:130-191 | from any valid ledger the WireGuard peers have pairwise disjoint networks, every remote overlay is routed to its owner's key, only owners without a key are skipped, and every configured network is such an overlay under its owner's key |
| PeerReload.ConfiguredPeerHasRecord | pkg/control_plane/server.go:601-609 | end to end: a configured peer has the key and resolved endpoint of its owner's registration, a keepalive of 25 seconds, and only overlays of that owner |
| PeerReload.InstallPeerRoutes | pkg/clientd/peer_reload.go:101-125 | installs each foreign network once, never the local one; succeeds exactly when all are installed, and fails only on a refused foreign network |
| CertLifecycle.NotDueWaits | pkg/control_plane/cert_lifecycle.go:94-142 | not due means a wait that is positive and at most the poll interval, and without a pending certificate never past the renewal time |
| CertLifecycle.WaitIsExact | pkg/control_plane/cert_lifecycle.go:125-142 | the wait is the poll interval while a replacement is pending, and otherwise the shorter of that and the time to renewal |
| CertLifecycle.DueExactlyWhen | pkg/control_plane/cert_lifecycle.go:94-123 | due exactly for a usable certificate with no open window once the lead reaches its end; the deadline is the old expiry or one hour from now, whichever is later |
| CertLifecycle.Defaults | pkg/control_plane/cert_lifecycle.go:65-92 | settings that are left out: ninety days, seven days and one hour |
| CertLifecycle.DueExactlyWhenNoWait | pkg/control_plane/cert_lifecycle.go:94-142 | due and a zero wait are the same decision |
| CertLifecycle.DueIsAccepted | pkg/control_plane/server.go:495-538 | a due certificate's deadline is at least the grace hour and the old expiry away, and the registry accepts it at any reading before it |
| CertLifecycle.OneIssuePerWindow | pkg/control_plane/server.go:495-538 | after an issue nothing is due again before the deadline, whatever happens short of promotion, clearing, removal or another accepted grant |
| CertLifecycle.PromotedCertDueExactlyWhen | pkg/control_plane/cert_lifecycle.go:94-123 | a promoted certificate is due exactly when its age has reached its validity minus the renewal lead |
| CertLifecycle.ShortRotationIsAlwaysDue | pkg/control_plane/cert_lifecycle.go:65-92 | an accepted configuration under which a promoted certificate is due at every moment since its issue |
| CertFiles.WriteTempFile | pkg/clientd/cert_update.go:91-116 | creates, fills and on failure removes the temporary file |
| CertFiles.BackupExistingFile | pkg/clientd/cert_update.go:118-135 | looks, refuses a directory, drops the old backup and moves the file, with the outcome of each operation |
| CertFiles.RestoreFile | pkg/clientd/cert_update.go:148-156 | removes an installed file and puts the backup back, with the outcome of each operation |
| CertFilesProof.BackupFacts | pkg/clientd/cert_update.go:118-135 | a backup works exactly when the path is no directory, its old backup is no directory that stays, and neither the look nor the move fails; a failure changes nothing but the old backup |
| CertFiles.RestoreCertKeyPair | pkg/clientd/cert_update.go:137-146 | restores the certificate, then the key, and reports whether both worked |
| CertFilesProof.RolledBack | pkg/clientd/cert_update.go:137-156 | a rollback that reports no failure restores both targets, except exactly when the key did not exist before and its removal was an operation that failed |
| CertFiles.ReplacePair | pkg/clientd/cert_update.go:57-88 | backups, renames, rollbacks and dropped backups, operation by operation |
| CertFiles.WriteCertKeyPair | pkg/clientd/cert_update.go:37-89 | the disk and outcome for every choice of failing operations; the paths are refused exactly when empty or equal; without a clash it keeps the promises below |
| CertFilesProof.UpdatePromised | pkg/clientd/cert_update.go:37-89 | with any operations failing: success is decided by which ones fail; success installs both files; an error without a failed rollback leaves both targets as before, except exactly when the key is new and its removal failed; at every intermediate point the old pair is recoverable from path or backup, or the new pair is installed |
| CertFilesProof.NoFaultInstallsExactlyWhen | pkg/clientd/cert_update.go:37-135 | when nothing fails, success with both files installed happens exactly when neither target is the backup path of an existing other and no directory stands in the way |
| CertFilesProof.ClashIsReportedAsSuccess | pkg/clientd/cert_update.go:70-88 | among plain files a run without faults reports success, and with a clash one target is gone |
| CertFilesProof.NewKeyCanStay | pkg/clientd/cert_update.go:78-84 | for every request whose targets do not exist, two failing operations that end in an error without reported rollback problem and leave the new key |
| CertFilesTidy.TempsGoUnlessRemovalFails | pkg/clientd/cert_update.go:45-55 | whatever fails, a temporary file is left behind only if its removal failed |
| CertFilesTidy.BackupsGoUnlessRemovalFails | pkg/clientd/cert_update.go:86-87 | after a success the backup of a replaced file is left behind only if its removal failed |
| CertFilesTidy.OtherFilesUntouched | pkg/clientd/cert_update.go:37-168 | no file other than the targets, their backups and the temporary files is touched |
| WeightedRing.RoundIsFair | pkg/balancer/selector.go:191-205 | from any cursor, as many picks as there are healthy ring places choose every healthy place once |
| WeightedRing.RingOrder | pkg/balancer/registry.go:19-25 | the ring lists the targets in order, each as many times in a row as its weight |
| WeightedRing.PickFails | pkg/balancer/selector.go:191-205 | a round without a healthy place picks nothing and takes the cursor once around |
| WeightedRing.EachTargetGetsItsWeight | pkg/balancer/selector.go:191-205 | any H picks, H the total healthy weight, choose each healthy egress exactly its weight times and no unhealthy one |
| FlowKeys.FlowIdIdentifies | pkg/balancer/selector.go:22-31 | the id of a key whose texts hold no bar equals another key's id exactly when all trimmed parts agree, whatever the other's texts |
| FlowKeys.BarIsShared | pkg/balancer/selector.go:22-31 | a key with a bar and without blanks shares its id with a different flow |
| FlowKeys.FlowIdUniqueExactlyWhen | pkg/balancer/selector.go:22-31 | for keys without blanks the id is unique exactly when no text has a bar |
| BalancerModel.SelectFailsExactlyWhen | pkg/balancer/selector.go:128-175 | Select fails exactly when every egress is unhealthy, and never returns an unhealthy one |
| BalancerModel.AnonymousSelectIsPick | pkg/balancer/selector.go:128-175 | in unlabelled mode a request without a flow key is the plain weighted pick |
| BalancerModel.EntriesOutliveNow | pkg/balancer/selector.go:207-234 | after every successful call each stored flow expires strictly later than now |
| BalancerModel.FlowSticks | pkg/balancer/selector.go:128-234 | a flow seen again within its idle window whose egress is present and healthy gets the same egress, whatever other requests came between |
| SelectionLaws.StickyTargetIsNamed | pkg/balancer/selector.go:145-154 | a live flow entry whose target is present and healthy decides, and the ring does not move |
| SelectionLaws.LabelDecides | pkg/balancer/selector.go:156-189 | in labelled mode the DSCP label, or without one the firewall-mark label, sends the request to its healthy target without moving the ring; otherwise the ring answers, with the reason missing or unhealthy |
| SelectionLaws.RingDecides | pkg/balancer/selector.go:170-174 | without a label that counts the ring answers and no fallback is reported |
| SelectionLaws.OnlyOwnFlowChanges | pkg/balancer/selector.go:207-234 | a decision records its own flow, drops expired ones and leaves everything else alone |
| SelectionLaws.ProbeDecidesHealth | pkg/balancer/health.go:31-66 | a probe result decides the health of its own target and of no other; a target never probed is healthy |
| Balancer.NewSnapshot | pkg/balancer/registry.go:14-30 | fails exactly on no targets, a refused target or a repeated id; otherwise the normalized targets and the ring that repeats each by weight |
| Balancer.NormalizedFacts | pkg/balancer/types.go:155-172 | exactly which targets are accepted, and that id and target are trimmed and the weight kept |
| Balancer.ExpandLoop | pkg/balancer/registry.go:19-25 | the nested loop builds that ring |
| Balancer.EngineObject.Select | pkg/balancer/selector.go:128-175 | the new engine state and the decision, for both modes, labels, sticky flows and fallbacks |
| Balancer.EngineObject.NextHealthyDumb | pkg/balancer/selector.go:191-205 | the scan picks the first healthy place from the cursor and advances past it |
| Balancer.EngineObject.ExpireFlows | pkg/balancer/selector.go:228-234 | exactly the flows that have not expired remain |
| Sni.ClientHelloServerName | pkg/ingress/sni.go:43-105 | on arbitrary bytes the cursor walk stays inside the record, terminates and agrees with the recursive reading of the layout |
| Sni.FirstHostName | pkg/ingress/sni.go:107-130 | the same for the server name list |
| Sni.ScanExtensions | pkg/ingress/sni.go:90-104 | the same for the extension loop |
| ClientHello.ServerNameIsRead | pkg/ingress/sni.go:43-130 | for every well-formed hello in one record of any version, whatever bytes follow, the answer is the first host_name of the first server_name extension after the hostname check, or the missing-name error exactly when there is none |
| ClientHello.TruncatedIsTooShort | pkg/ingress/sni.go:43-55 | a well-formed hello that is cut short anywhere is too short |
| ClientHello.ForeignRecords | pkg/ingress/sni.go:43-62 | which error a record gets that is too short, no handshake or no client hello |
| ServerName.HostnameIsRead | pkg/ingress/sni.go:43-130 | end to end for ASCII names: the trimmed lower-case name if that is a hostname, the hostname error otherwise |
| Hostname.NormalizeHostname | pkg/ingress/types.go:212-239 | accepts exactly the texts whose trimmed lower-case form is at most 253 long with labels of 1 to 63 letters, digits and inner hyphens |
| Hostname.AcceptedExactlyWhen | pkg/ingress/types.go:212-239 | character by character: letters, digits, hyphens and dots, a letter or digit at both ends and around every dot, no 64 in a row without a dot, at most 253 in all |
| Hostname.NormalIsIdempotent | pkg/ingress/types.go:212-239 | an accepted name is a hostname and is accepted again unchanged |
| WgConfigFile.GenerateConfig | pkg/wg/config.go:14-67 | the string builder writes exactly the specified lines |
| WgConfigFile.ParseConfigFile | pkg/wg/config.go:81-148 | the scanner loop with its section, peer and config variables agrees with folding the lines, with every error case |
| WgConfigFile.ParseLine | pkg/wg/config.go:96-139 | one line: skipped, a section change with its flush, a key of the current section, or an error |
| WgConfigFile.ParseInterfaceKV | pkg/wg/config.go:164-218 | one interface line by its lower-case key, with its error cases |
| WgConfigFile.ParsePeerKV | pkg/wg/config.go:220-264 | one peer line by its lower-case key, with its error cases |
| WgConfigFile.ParseAllowedIPs | pkg/wg/config.go:246-261 | splits, trims, skips empty items and fails on the first bad one |
| WgForeignLines.CommentIsSkipped | pkg/wg/config.go:97-100 | blank lines and comments change nothing |
| WgForeignLines.KeylessLineFails | pkg/wg/config.go:116-119 | a line that is neither section nor key with value is an error |
| WgForeignLines.SectionFinishesPeer | pkg/wg/config.go:102-114 | a section finishes the peer being read, and only a peer section starts another |
| WgForeignLines.CaseDoesNotMatter | pkg/wg/config.go:102-122 | keys and sections are read in any letter case |
| WgForeignLines.KeyOutsideFails | pkg/wg/config.go:124-138 | a key outside the two known sections is an error |
| WgForeignLines.UnknownKeyIsIgnored | pkg/wg/config.go:164-264 | keys that a section does not know are ignored |
| WgForeignLines.FirewallMarkIsRead | pkg/wg/config.go:178-183 | the firewall mark is read although it is never written |
| WgForeignLines.OverlongLineFails | pkg/wg/config.go:95-143 | an ASCII line of 65536 characters or more is an error |
| WgRoundTrip.WrittenIsRead | pkg/wg/config.go:14-264 | what was printed is parsed back, except for the firewall mark and what the seconds of a keepalive lose |
| WgRoundTrip.RoundTripExactlyWhen | pkg/wg/config.go:14-264 | parsing a printed config returns that config and its peers in order exactly when it has no firewall mark, whole-second keepalives, trimmed single-line strings and lines that fit the scanner |
| ISpecSyntax.Tokenize | pkg/awggen/ispec.go:137-169 | the cursor loop agrees with the recursive tokenizer, errors included |
| ISpecSyntax.TokensAreTokens | pkg/awggen/ispec.go:137-169 | every token is a tag closed by its first bracket or a word without spaces and brackets |
| ISpecSyntax.TokenizeWritten | pkg/awggen/ispec.go:137-169 | tokens written with single spaces come back |
| ISpecSyntax.ParseOperations | pkg/awggen/ispec.go:119-271 | all tokens parse to operations, or the spec is an error |
| ISpecWriter.WrittenSpecParses | pkg/awggen/ispec.go:119-271 | operations written as tags are tokenized and parsed back in order, each kind with its own arguments |
| ISpecWriter.HexRoundTrip | pkg/awggen/ispec.go:202-213 | decoding hex text gives the bytes back |
| ISpecWriter.TagReadExactlyWhen | pkg/awggen/ispec.go:171-271 | a tag is read as an operation exactly when its fields spell that operation |
| ISpecWriter.HexDecodesExactlyWhen | pkg/awggen/ispec.go:202-213 | hex decodes exactly when it is an even number of hex digits |
| ISpecWriter.HexIgnoresCase | pkg/awggen/ispec.go:202-213 | hex digits are read in either case |
| ISpecWriter.TemplateIgnoresCase | pkg/awggen/ispec.go:248-259 | a template is found however its name's letters are cased |
| ISpec.ValidExactlyWhenChainsAreSound | pkg/awggen/ispec.go:85-117 | a spec is valid exactly when every chain of template references is at most eight long, repeats no template and ends in a text that parses |
| ISpec.ValidateRecursive | pkg/awggen/ispec.go:85-117 | terminates, restores the visited set and succeeds exactly when the spec expands |
| ISpec.ValidateISpec | pkg/awggen/ispec.go:81-83 | the same from the empty visited set |
| ISpec.ExecuteLeaf | pkg/awggen/ispec.go:290-360 | the bytes, failure or panic of one operation, and how many random numbers it draws |
| ISpec.ExecuteOps | pkg/awggen/ispec.go:273-288 | restores the visited set; runs exactly the expanded operations where the expansion succeeds, and yields no bytes where it does not |
| ISpec.ExpandTemplate | pkg/awggen/ispec.go:311-330 | the same for one template reference |
| ISpec.ParseISpec | pkg/awggen/ispec.go:51-58 | the same for a whole spec |
| ISpec.RunProduces | pkg/awggen/ispec.go:273-360 | a run of plain operations yields what each allows and none that must panic; it panics only where one does not fit, and fails only without entropy |
| ISpec.EveryYieldIsReached | pkg/awggen/ispec.go:332-360 | every output that an operation allows comes from some draws |
| ISpec.ProducedLength | pkg/awggen/ispec.go:273-360 | output lengths lie between the sums of least and greatest operation lengths after expansion |
| ISpec.ValidateThenExecute | pkg/awggen/ispec.go:51-117 | for one spec: bytes only if it validates, with the length bound; a valid spec does not fail, yields bytes if its operations fit, and panics if one must |
| ISpec.AlwaysSucceedsExactlyWhen | pkg/awggen/ispec.go:332-360 | execution succeeds for every choice of random numbers exactly when every operation fits |
| ISpec.CanSucceedExactlyWhen | pkg/awggen/ispec.go:332-360 | it succeeds for some choice exactly when no operation must panic |
| ISpec.ValidSpecsCanPanic | pkg/awggen/ispec.go:353-360 | specs that validate and always panic, one of them on every machine |
| LastAddr.Fill16 | pkg/topology/ranges.go:139-152 | the in-place byte edit sets exactly the low host bits |
| LastAddr.FillLowValue | pkg/topology/ranges.go:139-152 | setting clear low bits adds 2^h - 1 |
| LastAddr.OrMask | pkg/topology/ranges.go:119-136 | or-ing the host mask into a masked word adds 2^h - 1 |
| LastAddr.PrefixLastAddr | pkg/topology/ranges.go:117-155 | on the 32-bit and on the 16-byte path the result is base + 2^h - 1 and an address |
| Netip.ContainsIsInterval | pkg/topology/ranges.go:41-43 | the leading-bits test is membership in the interval from base to last |
| Netip.NormalizeUnmaps | pkg/topology/ranges.go:110-115 | exactly the mapped IPv4 addresses are unmapped |
| Ranges.AvailableIPs | pkg/topology/ranges.go:46-61 | the loop lists all addresses strictly between first and last, in order, and ends at the top of the address space |
| Ranges.HostsElements | pkg/topology/ranges.go:46-61 | the hosts are exactly the contained addresses other than the first and the last |
| Ranges.AllocateIP | pkg/topology/ranges.go:65-89 | the nested scan is the first free element of the concatenated host lists, compared after unmapping |
| Ranges.FirstFreeIsFirst | pkg/topology/ranges.go:65-89 | it fails exactly when no host is free; otherwise all earlier hosts are in use |
| Ranges.AllocatesUntilExhausted | pkg/topology/ranges.go:65-89 | feeding results back yields distinct free addresses, n of them or all that are left |
| Ranges.OverlapIsSharing | pkg/topology/ranges.go:104-108 | the overlap test says yes exactly when some address is in both ranges |
| Ranges.IsRangeWithinOverlay | pkg/topology/validate.go:198-203 | testing first and last decides whether the whole range lies inside |
| RangeValidation.CheckRange | pkg/topology/validate.go:53-78 | the findings about one range are exactly the justified ones |
| RangeValidation.ParseRangeFacts | pkg/topology/ranges.go:18-38 | exactly which ranges parse; the network has the addresses of its CIDR and the balancer is unmapped |
| RangeValidation.FindOverlaps | pkg/topology/validate.go:80-91 | a finding for exactly the pairs that share an address |
| RangeValidation.ValidateRanges | pkg/topology/validate.go:43-91 | all findings are justified and all justified findings are reported |
| RangeValidation.NoFindingsExactlyWhenClean | pkg/topology/validate.go:43-91 | no finding exactly when everything parses, names are distinct, ranges lie inside the space, balancers inside their ranges and no two ranges share an address |
| AuditModel.RingHoldsNewest | pkg/control_plane/audit.go:35-58 | after any appends the ring holds exactly the last min(n, capacity) events, in order |
| AuditModel.StampKeepsEvent | pkg/control_plane/audit.go:47-50 | a set timestamp stays, an unset one becomes the clock's, nothing else changes |
| AuditModel.MatchingSelects | pkg/control_plane/audit.go:103-117 | the matches are the events at exactly the places inside both inclusive bounds with the wanted type and node, in order |
| AuditModel.NothingSkipped | pkg/control_plane/audit.go:63-91 | a query over stamped events skips none |
| AuditModel.QuerySeesNewest | pkg/control_plane/audit.go:47-91 | in every log built by appending, a query looks at exactly the last min(n, capacity) events, stamped, and skips none |
| AuditLog.AuditLog.Append | pkg/control_plane/audit.go:47-58 | the new ring, with the clock filled in for an unset timestamp |
| AuditLog.AuditLog.Collect | pkg/control_plane/audit.go:63-84 | the two scans collect the matching events oldest first |
| AuditLog.AuditLog.Query | pkg/control_plane/audit.go:63-91 | a time-sorted selection of the matches, as many as the limit allows, none later than an omitted match |
| AuditLog.AuditLog.Len | pkg/control_plane/audit.go:94-101 | the number of events held |

## Left out

- gRPC, TLS, X.509 and protobuf: certificates are opaque bytes with an expiry, messages are values.
- Mutexes as such: each locked section is one atomic step, and interleavings happen between sections.
- Node registration over the wire, its rollback and the seeding of ownership (pkg/control_plane/server.go:84-280): only the registry's own operations are modelled.
- The heartbeat stream, the audit query stream, mesh-wide parameter rotation and signalling: plumbing around modelled parts.
- The peer-list stream's versions: a peer list also depends on the registry, so its version does not determine its content; only the list built from one snapshot is stated.
- The client's state cache file: whole-file JSON, no branching of interest.
- Overlay keys spelled as IPv4-mapped IPv6, which the ledger accepts as separate keys, and IPv6 allowed addresses.
- Wrap-around of version counters, subscription counters and the balancer cursor at the machine integer limit, and of clock arithmetic.
- DrainLoop.Drain: the loop itself runs without interference; interleavings are stated on the step model that it is proved equal to.
- PeerReload.InstallPeerRoutes: the kernel call is a predicate on networks, so order-dependent kernel failures are not captured.
- CertFiles.WriteCertKeyPair: paths are in cleaned form and temporary names differ from both paths and their backups; creating the parent directory, permissions and partial writes to a temporary file are not modelled.
- ServerName.HostnameIsRead: for host names that are not ASCII the check is a parameter, as in `ServerNameIsRead`; how raw bytes become text is not modelled.
- WgRoundTrip.RoundTripExactlyWhen: key, endpoint and network texts are assumed to be read back by their own parsers, so unmasked networks are excluded; the floating-point seconds of a duration are assumed exact for whole seconds and off by at most one otherwise; a peer's remove, update-only and replace flags are not printed and not modelled.
- ISpecSyntax.Tokenize: specs are ASCII; in other text the original mixes byte and rune classification of spaces.
- ISpec.ExecuteLeaf: random numbers are any sequence; how evenly they fall is not stated, and crypto random bytes come from the same sequence.
- AuditLog.AuditLog.Query: sorting is any sorted permutation, since the library sort is not stable.
- RangeValidation.ValidateRanges: the checks of other topology sections and the finding texts are not modelled.
- IPv6 zones in addresses, and looking up a range's balancer for an address.
- Netlink, nftables, eBPF, sockets, proxies, DNS, metrics, command-line parsing, RouterOS text, upgrade and migration tools.
