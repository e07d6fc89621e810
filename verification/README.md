# Network observation and inventory: verified model

A Dafny model of two daemons and proofs of what their derived views keep equal
to their sources over whole runs.

* **Observation model engine.** Link, address, neighbour, FDB and LLDP
  observations are fused into candidates with evidence sets, a status machine,
  two phases, tombstones, aging and restart. `EngineModel` gives every
  operation as a pure step with the events it emits; `ObservationModelEngine`
  and `LocalStateTracker` are the mutable classes, with their loops, proved
  against those steps; the other `Engine*` files prove what all runs keep.
* **Path to clients.** Commits, late deliveries, the coalescing publication
  queue and clients that re-query or that only believe the signals
  (`Publication`, `ClientCoherence`).
* **Netlink filter and device index** (`Netlink`, `NetlinkState`, `Dedup`).
* **LLDP source**: identity, generation-guarded cache, reconnect with
  reconciliation, and the watch hand-off between threads (`LldpIdentity`,
  `LldpCache`, `LldpSource`, `WatchSupervisor`).
* **Runtime supervision**: bounded queue and resync mask, reconnect throttle
  and escalation, keepalives against aging (`ObservationQueue`, `Resync`,
  `LldpSupervision`, `Keepalive`).
* **Inventory**: ownership-partitioned merge, versions, readiness, and the
  throttled refresh loop (`Inventory`, `InventoryManager`, `RefreshLoop`).

`dafny verify dfyconfig.toml` checks the project.

## Where the code does not meet a stated property

The code is followed; each line names the exact condition and the lemma that
shows the failure.

* The candidate named by a reported link change is assumed hidden after
  reconciliation. That is false when its MAC is not local afterwards:
  `EngineReports.FalseRemoval`, `Witnesses.RemovedLinkReportsVisibleNeighbour`.
* LLDP observations are not compared with local MACs, so an announcement can
  surface one: `EngineInvariant.NamesLocalMac`, `Witnesses.LldpSurfacesLocalMac`.
* A keepalive during initialization tells a restarted engine from a new one:
  `EngineRestart.TellsApart`, `Witnesses.EarlyKeepaliveResurrects`.
* A nameless link that already holds a MAC is counted again each time it is
  announced: `LocalState.DoubleCounts`, `LocalState.NamelessLinkLeaks`.
* The comment on the keepalive interval asks it to stay below the age-out
  time; the lower clamp of ten seconds breaks this for age-out times of ten
  seconds or less: `Keepalive.ReassertBelowAgeout`.
* The backlog discarded before a redump may hold LLDP observations, for which
  no repair is requested: `Resync.LosesLldp`, `Resync.DiscardedLldpUnmarked`.
* A cache write and the delivery of its observation are two steps, so opposite
  news about one neighbour can overtake each other: `LldpSource.Orderly`,
  `LldpSource.OvertakenChangeDiverges`.
* A live redump clears the netlink filter without telling anyone behind it, so
  the removal of an entry known before is blocked: `Dedup.HidesRemoval`,
  `Dedup.ClearHidesRemoval`; and devices vanish from the table without an
  event: `Netlink.Forgets`, `Netlink.UpdateKeepsIndex`; and neighbour
  withdrawals are blocked: `Netlink.HidesWithdrawal`, `Netlink.NeighborNews`.
* A restart drops the local state without any local event, so clients keep
  what they read: `ClientCoherence.DropsSilently`, `ClientCoherence.RestartLosesSome`;
  and an address without IP part creates an interface entry unannounced:
  `ClientCoherence.Misleads`.
* A watch whose loop ends before its exit handler is armed is installed dead
  and taken for alive: `WatchSupervisor.DeathRecordedExact`,
  `WatchSupervisor.SilentDeathInstalled`.

## Conventions

* Interface policy and hard filter are arbitrary fixed predicates in `Config`;
  the classifier is the rule-based one.
* Clocks, source answers and backend answers are parameters. Time is a whole
  number of nanoseconds; `steady_clock` zero is 0.
* Several threads are modelled as one run whose steps are the threads' atomic
  actions, in any order.
* The generic queue, dirty set and worker types are modelled from what their
  wrappers promise about them. The resync mask is a set of origins.
* Hypotheses on runs: link events name their interface and addresses are IPv4
  or IPv6 (`Dedup`); neighbour MACs and IPs hold no `|` (`Netlink`); nothing
  is reported of an (interface, identity) pair while the opposite news about
  it is still under way (`LldpSource.Orderly`); ticks are at most a given
  spacing apart (`Keepalive`); the sink stays attached, the publication
  queue open and publishes succeed (`ClientCoherence`).

## Model

The main results come first, then the lemmas they build on and the failing
runs, then the operations proved against their specification functions.

| member | source | states |
|---|---|---|
| `EngineRestart.RestartEqualsFreshStart` | services/network-observation/core/engine/ObservationModelEngine.cpp:358-416 | From any engine state, a restart followed by any operations gives after each of them the local snapshot, phase, events and visible candidates (all fields but `firstSeen`) of a new engine fed the same operations |
| `ClientCoherence.ClientNeverStale` | services/network-observation/service/ObservationService.cpp:352-422 | In every interleaving of commits, late deliveries, marks, takes, publishes and re-queries, a MAC whose visibility, status or classification differs from what the client last read is in an undelivered batch, the pending map, the batch in flight or an unanswered signal |
| `ClientCoherence.QuietClientIsExact` | services/network-observation/service/PublicationQueue.h:54-73 | Once everything has drained the client agrees with the engine on visibility, status and classification of every MAC, holds in full every MAC that no keepalive has changed since it was read, and without such keepalives exactly `remoteCandidates()` |
| `ClientCoherence.DrainedMirrorIsExact` | services/network-observation/service/PublicationQueue.h:65-105 | A client that only adds on Changed and deletes on Removed holds exactly the visible MACs and the tracked interfaces once drained, for every mark/take interleaving |
| `ClientCoherence.CommitMirrors` | services/network-observation/core/engine/ObservationModelEngine.cpp:100-108 | One commit keeps a signals-only client exact, on MACs and interfaces, if and only if it is no false removal, no restart that drops interfaces and no address without IP part that creates an entry |
| `ClientCoherence.LocalClientExact` | services/network-observation/service/ObservationService.cpp:352-386 | In every interleaving, what a re-querying client last read of each interface and of the local MACs and IPs is current or has news on its way, at every moment, if and only if no restart drops local state silently |
| `EngineHistory.EvidenceIsHistory` | services/network-observation/core/engine/ObservationModelEngine.cpp:158-301 | After every run all that the engine keeps of a MAC (known, hidden, freshness, both times, evidence keys, IP, interface and port words, LLDP ids and name) is what a history of operations alone says: last word per key since the last restart, or since the last go-live that found a non-hidden MAC with no FDB, no LLDP and no neighbour key with an IP |
| `EngineHistory.TableIsHistory` | services/network-observation/core/engine/ObservationModelEngine.cpp:158-416 | After every run the whole candidate table, hidden candidates and every field included, is a function of that history |
| `EngineHistory.VisibleIsHistory` | services/network-observation/core/engine/ObservationModelEngine.cpp:312-325 | The history alone decides the candidate a client sees, in every field, including whether there is one |
| `EngineInvariant.ReachableEvidence` | services/network-observation/core/engine/ObservationModelEngine.cpp:484-500 | In every reachable state flags match evidence sets, no-evidence means no neighbour key, FDB key or LLDP mark; nothing is visible while Initializing; when Live every non-tombstone has evidence and visible means Confirmed or Aged |
| `EngineInvariant.LocalMacNeverVisible` | services/network-observation/core/engine/ObservationModelEngine.cpp:439-458 | Across link adds, MAC changes, shared MACs, removals and restarts, a MAC held by a tracked interface is never visible, in runs without such announcements |
| `EngineInvariant.StepKeepsHidden` | services/network-observation/core/engine/ObservationModelEngine.cpp:237-257 | Every operation keeps local MACs hidden if and only if it is not an LLDP announcement naming a local MAC |
| `EngineReports.UnnamedUnchanged` | services/network-observation/core/engine/ObservationModelEngine.cpp:24-45 | A MAC that a step does not report looks the same before and after: equal in all fields, or for a silent keepalive in visibility, status and classification |
| `EngineReports.BatchTruthful` | services/network-observation/core/engine/ObservationModelEngine.cpp:100-108 | Changed and removed are disjoint, changed MACs are visible, removed MACs were visible and are now hidden if and only if the step is not a false removal |
| `EngineReports.NamedExactly` | services/network-observation/core/engine/ObservationModelEngine.cpp:24-45 | A MAC is named exactly if evidence updated it and it is or was visible, or a link carrying it moved while it was visible, or it otherwise changed visibility, status or classification |
| `LocalState.CountsExact` | services/network-observation/core/engine/LocalStateTracker.cpp:12-137 | After every run MAC counts never under-count, IP counts equal the number of (interface, family set, CIDR) entries, and with named links MAC counts equal the number of holders |
| `LocalState.LinkExcess` | services/network-observation/core/engine/LocalStateTracker.cpp:55-99 | Exact accounting: a link step raises the over-count of a MAC by one exactly when a nameless entry holding it is announced again, and otherwise leaves every over-count alone |
| `Dedup.DedupInvisible` | services/network-observation/inputs/netlink/state/NetlinkState.cpp:20-64 | For every stream, clears of the filter included, that hides no removal, the tracker fed only the passing events has the MAC counts, IP counts and interface states (up to blank entries) of the tracker fed everything |
| `Dedup.DedupExact` | services/network-observation/inputs/netlink/state/NetlinkState.cpp:20-64 | The trackers agree after every prefix of a stream if and only if no blocked message is the removal of a link or address that was announced and then forgotten by a clear |
| `Netlink.DeviceIndexAgrees` | services/network-observation/inputs/netlink/state/NetlinkState.cpp:66-202 | After every stream, clears included, the device table has the keys of the aggregates, each the merge of its aggregate; FDB parts equal the FDB table; IPs are backed by stored neighbours; and replaying the emitted device events rebuilds the table after every prefix if and only if no clear hits a non-empty table |
| `Netlink.DeviceTableMeaning` | services/network-observation/inputs/netlink/state/NetlinkState.cpp:143-202 | What the table says in terms of the raw stream alone: presence, port and addresses are the last word on each, and a device is listed exactly when one holds |
| `Netlink.BlockedExactly` | services/network-observation/inputs/netlink/state/NetlinkState.cpp:66-141 | On the raw stream: an FDB event is blocked exactly when the last one on its MAC since the last clear was the same announcement; a neighbour announcement likewise for its key; a withdrawal exactly when nothing is standing |
| `Netlink.FdbFilterInvisible` | services/network-observation/inputs/netlink/state/NetlinkState.cpp:66-94 | The last passed FDB word on a MAC is the last FDB word on it, clears included |
| `Netlink.NeighborFilterExact` | services/network-observation/inputs/netlink/state/NetlinkState.cpp:96-141 | The last passed word on every neighbour key is the last word on it, after every prefix of a stream, if and only if no clear makes the filter block a withdrawal |
| `LldpSource.ViewEqualsCache` | services/network-observation/inputs/lldp/lldpd/LldpdSource.cpp:221-278 | Over every orderly run of watch events, flushes, keepalive passes and reconnects with partial enumeration, while no reconnect is open, every order of the deliveries under way leaves exactly the cached pairs present |
| `LldpSource.OrderlyExact` | services/network-observation/inputs/lldp/lldpd/LldpdSource.cpp:65-71 | A run is orderly (nothing is reported of a pair while the opposite news about it is under way) if and only if at each of its moments no pair has opposite news under way |
| `LldpSource.StepExact` | services/network-observation/inputs/lldp/lldpd/LldpdSource.cpp:221-364 | One action of any thread leaves no opposite news under way if and only if it is orderly, and then the view-to-be stays equal to the cache |
| `LldpSource.OneMindMeansOneView` | services/network-observation/inputs/lldp/lldpd/LldpdSource.cpp:65-71 | No pair has opposite news under way if and only if all orders of the deliveries end in the same view |
| `LldpSource.CacheIsLastWord` | services/network-observation/inputs/lldp/lldpd/LldpdSource.cpp:221-278 | In every run a pair is cached exactly if the last change naming it since the last reconnect swap and since the last flush of its interface was an announcement, with its ids and name |
| `LldpSource.ViewIsLastWord` | services/network-observation/inputs/lldp/lldpd/LldpdSource.cpp:221-252 | After orderly runs, with no reconnect open, a pair is left present exactly if it was announced or enumerated since the swap and not withdrawn or flushed again |
| `LldpSource.KeepaliveGuardSound` | services/network-observation/inputs/lldp/lldpd/LldpdSource.cpp:293-330 | In every run a keepalive that passes the generation check names an entry cached at that moment under its own identity and carries the ids and name last announced; a pass that ends has emitted each pair exactly once |
| `LldpSource.UndisturbedPass` | services/network-observation/inputs/lldp/lldpd/LldpdSource.cpp:316-330 | A pass that nothing disturbs delivers one keepalive, with the cached ids and name, per pair of the cache |
| `LldpCache.EqualGenerationsEqualContents` | services/network-observation/inputs/lldp/lldpd/LldpNeighborCache.cpp:13-89 | Over any history generations never fall and equal generations mean equal contents |
| `WatchSupervisor.SingleDispatcher` | services/network-observation/inputs/lldp/lldpd/LldpWatchSupervisor.cpp:39-114 | In every interleaving at most one watch has a callback attached; none executes while the swap hook runs or after a completed stop; a recorded death is the installed watch's own |
| `WatchSupervisor.StopHoldsUntilStart` | services/network-observation/inputs/lldp/lldpd/LldpWatchSupervisor.cpp:102-114 | A true stop leaves the supervisor quiesced, and no action of any thread ends that before a start attaches its callback |
| `WatchSupervisor.DeathRecordedExact` | services/network-observation/inputs/lldp/lldpd/LldpWatchSupervisor.cpp:39-46 | In every interleaving an installed watch whose loop has ended has its death on record if and only if it notified after its exit handler was armed, and unless stopped it is reported alive exactly until then |
| `WatchSupervisor.CallOutcome` | services/network-observation/inputs/lldp/lldpd/LldpWatchSupervisor.cpp:48-100 | Once in the lock, a start over a live watch or a refresh after a stop drops its own watch and changes nothing else; any other call installs its own watch, attached and armed, once the old one is joined, with the swap hook in between for a refresh |
| `Resync.ResyncNeverLost` | services/network-observation/service/NetlinkLldpObservationRuntime.cpp:337-371 | At every point between ticks each overflow drop is followed by a successful repair begun after it, or its bit is up, or (LLDP) there is no observer; drops during a repair included |
| `Resync.LossNeverForgotten` | services/network-observation/service/NetlinkLldpObservationRuntime.cpp:337-371 | Everything lost, by overflow or by the discard before a redump, is repaired since or still owed at every moment of a run if and only if no discard takes a queued LLDP item along while no LLDP bit is up or being served and an observer is installed |
| `Resync.GoodTickRepairs` | services/network-observation/service/NetlinkLldpObservationRuntime.cpp:337-371 | A tick whose repairs succeed, with an observer and nobody interfering, leaves no bit up and every drop repaired |
| `LldpSupervision.EscalationEarned` | services/network-observation/service/NetlinkLldpObservationRuntime.cpp:373-487 | In every run attempts on one observer are at least 30 s apart, and a dead-watch drop follows five consecutive failed attempts on that observer spanning at least 120 s |
| `LldpSupervision.EscalationNotEarly` | services/network-observation/service/NetlinkLldpObservationRuntime.cpp:396-417 | With a clock that does not run backwards the drop comes no earlier than 120 s after the first of those attempts |
| `LldpSupervision.TickExact` | services/network-observation/service/NetlinkLldpObservationRuntime.cpp:373-450 | In every run a tick reconnects exactly when the watch is dead or a due probe fails and the last attempt on this observer is 30 s past; drops the observer exactly when it stopped, or is dead with five failures in a row; and starts a new one exactly when none is left and the last start is 30 s past or forgotten by a drop |
| `Keepalive.KeepalivesDefeatAging` | services/network-observation/service/NetlinkLldpObservationRuntime.cpp:489-499 | Over unbounded time and any timely interleaving of ticks, agings and unrelated observations a Confirmed cached LLDP neighbour is never Aged or Expired |
| `Keepalive.KeepaliveBoundExact` | services/network-observation/service/NetlinkLldpObservationRuntime.cpp:37-40 | For a neighbour just re-asserted this holds for every timely run if and only if interval plus tick spacing less one unit exceeds neither limit |
| `Inventory.SliceIsLastGood` | services/rmc-inventory/core/DefaultInventoryManager.cpp:47-153 | After every run each source's owned slice is exactly what it last collected successfully |
| `Inventory.MergeOrderFree` | services/rmc-inventory/core/DefaultInventoryManager.cpp:105-133 | Merging in any source order gives the same fields |
| `Inventory.VersionIdentifiesFields` | services/rmc-inventory/core/DefaultInventoryManager.cpp:135-152 | Versions never fall, count the changing refreshes, and equal versions mean equal fields; ready never unlatches |
| `Inventory.StateIsLastAnswer` | services/rmc-inventory/core/DefaultInventoryManager.cpp:58-133 | After every run a source has a state exactly if it was ever asked, and every field of it follows from its answers: health, staleness and error of the last one, and the time of the last success across failures |
| `Inventory.ReadyMeans` | services/rmc-inventory/core/DefaultInventoryManager.cpp:137-145 | The inventory is ready if and only if some refresh of the run ended with every source then registered as required having answered when last asked, and the phase says so |
| `Inventory.RegisterExact` | services/rmc-inventory/core/DefaultInventoryManager.cpp:180-204 | A named source is registered exactly when adding it keeps names unique and ownership a partition of non-reserved fields; otherwise nothing changes |
| `RefreshLoop.RequestsThrottledNeverLost` | services/rmc-inventory/service/InventoryService.cpp:302-428 | In every interleaving each refresh call or file change is pending or followed by a refresh started after it; forced cycles keep the minimum interval from the previous cycle, others the reconcile interval; a poll wakes at the next reconcile or, for a pending request, at the end of the throttle interval |
| `RefreshLoop.PendingRequestServed` | services/rmc-inventory/service/InventoryService.cpp:302-428 | Whatever happens meanwhile, a pending request starts a refresh within six steps of the loop once the clock is the minimum interval past the last cycle |
| `RefreshLoop.ReconcileHappens` | services/rmc-inventory/service/InventoryService.cpp:302-400 | An idle loop starts a refresh within six steps once the reconcile interval is over |
| `RefreshLoop.ForcedForAReason` | services/rmc-inventory/service/InventoryService.cpp:402-412 | Every forced cycle but the opening one answers a refresh call or a consumed file change younger than the last clearing of the request flag |
| `ClientCoherence.MirrorExact` | services/network-observation/service/PublicationQueue.h:65-105 | With one engine step delivered at a time, the newest news about each MAC and interface always says whether it exists, after every prefix of a run, if and only if no commit misleads |
| `ClientCoherence.LocalStepExact` | services/network-observation/core/engine/ObservationModelEngine.cpp:358-387 | Every step keeps that, except exactly a restart that drops something no news is under way about |
| `ClientCoherence.QuietLocalIsExact` | services/network-observation/service/ObservationService.cpp:352-422 | A drained client has the local state, in runs without such a restart |
| `Publication.KeyOrder` | services/network-observation/service/PublicationQueue.h:25-52 | The key order is strict, total and transitive, with all interfaces before local state before all candidates |
| `Publication.TextLessMeaning` | services/network-observation/service/PublicationQueue.h:25-41 | Within a kind, texts compare by the first character in which they differ |
| `Publication.MarkedMeaning` | services/network-observation/service/ObservationService.cpp:352-386 | Marking an event records its intent for exactly the keys it is about and leaves all other keys alone |
| `EngineRestart.StepSimulates` | services/network-observation/core/engine/ObservationModelEngine.cpp:158-416 | The correspondence between a restarted and a new engine survives an operation, with equal events, if and only if it is not a keepalive hitting a carried-over identity, which needs the Initializing phase |
| `EngineRestart.KeepaliveTellsApart` | services/network-observation/core/engine/ObservationModelEngine.cpp:248-257 | The one operation that distinguishes a restarted engine from a new one, for all states |
| `EngineInvariant.NoEvidenceIsBare` | services/network-observation/core/engine/ObservationModelEngine.cpp:59-62 | On coupled candidates the evidence test is exactly the absence of all three kinds of evidence |
| `EngineInvariant.NeighborCoupled` | services/network-observation/core/engine/ObservationModelEngine.cpp:169-186 | Adding or withdrawing a neighbour keeps flags and flattened IP sets within the evidence keys |
| `EngineInvariant.ObserveKeepsOk` | services/network-observation/core/engine/ObservationModelEngine.cpp:187-194 | The shared tail of the evidence handlers keeps the evidence and phase invariant |
| `EngineInvariant.StepKeepsOk` | services/network-observation/core/engine/ObservationModelEngine.cpp:83-416 | Every operation keeps the evidence and phase invariant |
| `EngineInvariant.RunKeepsOk` | services/network-observation/core/engine/ObservationModelEngine.cpp:83-416 | The evidence and phase invariant holds after every run |
| `EngineHistory.SituationFollows` | services/network-observation/core/engine/ObservationModelEngine.cpp:83-152 | Phase and local state are determined by the local observations and lifecycle calls of the history |
| `EngineHistory.SightingConfirms` | services/network-observation/core/engine/ObservationModelEngine.cpp:484-500 | When Live, a sighting that counts (allowed on its interface, past the hard filter, not local) makes its MAC visible and Confirmed at its time, whatever it was before |
| `EngineHistory.WithdrawalOnlyErases` | services/network-observation/core/engine/ObservationModelEngine.cpp:179-194 | A withdrawal never revives: it erases the candidate exactly when no evidence is left in the history, and otherwise keeps status and time |
| `EngineHistory.AgingMeaning` | services/network-observation/core/engine/ObservationModelEngine.cpp:331-356 | A visible candidate stays visible exactly while no older than the expiry time and is Aged exactly when older than the age-out time or Aged before |
| `LocalState.LinkKeepsSound` | services/network-observation/core/engine/LocalStateTracker.cpp:55-99 | From exact counts a link step gives exact counts if and only if it does not double-count |
| `LocalState.AddressKeepsSound` | services/network-observation/core/engine/LocalStateTracker.cpp:105-137 | Address steps keep soundness and exactness |
| `LocalState.LocalMeansHeld` | services/network-observation/core/engine/LocalStateTracker.cpp:143-149 | With exact counts a MAC or IP is local exactly when some tracked interface holds it |
| `LocalState.ReportsMeanChange` | services/network-observation/core/engine/LocalStateTracker.cpp:55-137 | A link observation is reported as a change exactly when it removed an entry or moved its MAC, an address observation exactly when it changed an IP count |
| `LocalState.IpOfMeaning` | services/network-observation/core/engine/LocalStateTracker.cpp:12-18 | The IP part stands before the slash and is empty without one |
| `LocalState.NamelessLinkLeaks` | services/network-observation/core/engine/LocalStateTracker.cpp:73-82 | A nameless interface announced twice and removed leaves its MAC local with no interface left |
| `Dedup.MessageExact` | services/network-observation/inputs/netlink/state/NetlinkState.cpp:20-64 | One message keeps the two trackers in agreement if and only if it is not such a hidden removal |
| `Dedup.UnclearedNeverHides` | services/network-observation/inputs/netlink/state/NetlinkState.cpp:20-64 | A filter that is not cleared hides no removal, whatever the stream |
| `Dedup.ClearHidesRemoval` | services/network-observation/inputs/netlink/NetlinkNetworkMonitor.cpp:325-345 | For every link: announced, then a live redump clears the filter, then removed leaves the interface in the tracker behind the filter |
| `Dedup.RawFollows` | services/network-observation/inputs/netlink/state/NetlinkState.cpp:20-64 | The tracker fed everything is determined by the tables of a filter that never forgets, and the real filter knows no more than those |
| `Dedup.MessageFollows` | services/network-observation/service/NetlinkObservationMapper.cpp:38-68 | Applying a message keeps a tracker equal to what tables that record it determine |
| `Dedup.PassesMeansChange` | services/network-observation/inputs/netlink/state/NetlinkState.cpp:20-64 | A link or address message passes the filter exactly when it changes the tables |
| `Dedup.CidrInjective` | services/network-observation/service/NetlinkObservationMapper.cpp:38-40 | The CIDR text determines address and prefix length, also for addresses that contain a slash |
| `Dedup.CidrMeaning` | services/network-observation/service/NetlinkObservationMapper.cpp:38-40 | The CIDR text is the address, a slash and the decimal prefix length |
| `Netlink.UpdateKeepsIndex` | services/network-observation/inputs/netlink/state/NetlinkState.cpp:143-202 | Every update keeps the index, emits an event exactly when the device table changes, and the event accounts for the whole change, if and only if it is not a clear of a non-empty table |
| `Netlink.AggregateIsLastWord` | services/network-observation/inputs/netlink/state/NetlinkState.cpp:66-141 | An aggregate is the last FDB word on its MAC and the last word on each of its addresses |
| `Netlink.FdbKeepsIndex` | services/network-observation/inputs/netlink/state/NetlinkState.cpp:66-94 | An FDB update keeps the index, and its emitted event accounts for the whole table change |
| `Netlink.NeighborKeepsIndex` | services/network-observation/inputs/netlink/state/NetlinkState.cpp:96-141 | A neighbour update keeps the index, and its emitted event accounts for the whole table change |
| `Netlink.NeighborKeyInjective` | services/network-observation/inputs/netlink/utils/NetlinkUtils.cpp:107-109 | The neighbour key text determines interface, MAC, family and IP when MAC and IP are free of the separator, even if the interface name is not |
| `LldpSource.LastWins` | services/network-observation/inputs/lldp/lldpd/LldpdSource.cpp:65-71 | With opposite news under way about a pair, deliveries can end either way |
| `LldpSource.OvertakenChangeDiverges` | services/network-observation/inputs/lldp/lldpd/LldpdSource.cpp:65-71 | For every announcement, a flush that overtakes its delivery leaves a pair present that the cache has lost |
| `LldpSource.DisturbedPassStops` | services/network-observation/inputs/lldp/lldpd/LldpdSource.cpp:299-303 | Once the cache has moved the pass ends without another keepalive |
| `LldpSource.RemovalNamesPair` | services/network-observation/inputs/lldp/lldpd/LldpdSource.cpp:354-364 | A Removed observation built from a cached entry resolves to the cached key |
| `LldpCache.AlwaysKeyed` | services/network-observation/inputs/lldp/lldpd/LldpNeighborCache.cpp:13-36 | Every cached entry sits under the non-empty identity its own ids resolve to |
| `LldpCache.ContentsAreLastWord` | services/network-observation/inputs/lldp/lldpd/LldpNeighborCache.cpp:13-73 | After any history the cache holds exactly the last word per interface and identity; an exchange installs its replacement, a flush and a clear forget |
| `LldpCache.GenerationMoves` | services/network-observation/inputs/lldp/lldpd/LldpNeighborCache.cpp:13-73 | The generation moves by one for every cacheable observation and exchange, and for a flush or clear exactly if it changes the contents |
| `LldpIdentity.Resolve` | services/network-observation/core/LldpUtils.h:53-61 | A key is found exactly when one of the ids is MAC-like, and it is a normalized MAC |
| `LldpIdentity.NormalizedMacStable` | services/network-observation/core/LldpUtils.h:39-45 | A normalized MAC is MAC-like and normalizing again changes nothing |
| `LldpIdentity.ResolveIdempotent` | services/network-observation/core/LldpUtils.h:53-61 | A resolved key resolves to itself, so cache and engine agree on it |
| `LldpIdentity.ResolvePrefersChassis` | services/network-observation/core/LldpUtils.h:53-61 | A MAC-like chassis id decides, a MAC-like port id only otherwise |
| `LldpIdentity.MacLikeMeaning` | services/network-observation/core/LldpUtils.h:24-34 | MAC-like texts are exactly six pairs of hexadecimal digits joined by colons |
| `LldpIdentity.NormalizedMeaning` | services/network-observation/core/LldpUtils.h:39-45 | The normal form is the lower-case spelling of the same text, one for all spellings |
| `WatchSupervisor.StopOutcome` | services/network-observation/inputs/lldp/lldpd/LldpWatchSupervisor.cpp:102-114 | A stop goes through once the watch is joined |
| `WatchSupervisor.SilentDeathInstalled` | services/network-observation/inputs/lldp/lldpd/LldpWatchSupervisor.cpp:116-119 | A run after which a dead watch is installed and reported alive |
| `WatchSupervisor.RunKeepsOk` | services/network-observation/inputs/lldp/lldpd/LldpWatchSupervisor.cpp:39-114 | Every watch has one role, callbacks belong to the installed or installing watch, and the lock holder's progress matches the state, in every run |
| `ObservationQueue.PushLosesOnlyMarked` | services/network-observation/service/BoundedObservationQueue.h:31-44 | A push appends, discards the oldest item exactly when the queue is full, and raises exactly its origin bit; a closed queue ignores it |
| `ObservationQueue.BurstKeepsNewest` | services/network-observation/service/BoundedObservationQueue.h:31-44 | After any burst the queue holds the newest items up to its capacity, in order, and exactly the origins of the older ones are marked |
| `Resync.LossRemembered` | services/network-observation/service/NetlinkLldpObservationRuntime.cpp:341-344 | The same, exactly, for each single step |
| `Resync.DiscardedLldpUnmarked` | services/network-observation/service/NetlinkLldpObservationRuntime.cpp:341-344 | For every capacity and payload, a run from the start that ends between ticks with LLDP observations discarded, no bit up, an observer installed and no repair since |
| `LldpSupervision.ResyncExact` | services/network-observation/service/NetlinkLldpObservationRuntime.cpp:354-370 | A resync attempts a reconnect exactly under the same throttle |
| `Keepalive.KeepaliveIsSilent` | services/network-observation/core/engine/ObservationModelEngine.cpp:278-292 | A keepalive of such a neighbour changes neither status nor classification and emits nothing |
| `Keepalive.ReassertBelowAgeout` | services/network-observation/service/NetlinkLldpObservationRuntime.cpp:35-40 | The derived interval is below the age-out time if and only if that exceeds ten seconds |
| `Keepalive.ReassertMeetsBound` | services/network-observation/service/NetlinkLldpObservationRuntime.cpp:37-40 | The derived interval, clamps included, meets the keepalive bound for exactly these tick spacings, by age-out time |
| `Inventory.MergePointwise` | services/rmc-inventory/core/DefaultInventoryManager.cpp:105-133 | Each field is decided by its owner's result alone: collected value if it succeeded, previous value otherwise |
| `Inventory.VersionCounts` | services/rmc-inventory/core/DefaultInventoryManager.cpp:135-152 | The version is the number of refreshes that changed the field map, the timestamp that of the last of them |
| `Inventory.RunKeepsOk` | services/rmc-inventory/core/DefaultInventoryManager.cpp:180-204 | In every run names are unique, ownership is disjoint, non-empty and metadata-free, and only owned fields appear in the snapshot |
| `Inventory.RegisterKeepsOk` | services/rmc-inventory/core/DefaultInventoryManager.cpp:180-204 | Accepted and rejected registrations keep the ownership partition |
| `Inventory.DiffEmptyMeansEqual` | services/rmc-inventory/core/DefaultInventoryManager.cpp:206-223 | The diff is empty exactly when the field maps are equal |
| `Inventory.DiffExact` | services/rmc-inventory/core/DefaultInventoryManager.cpp:206-223 | The diff names a field exactly when its value differs, as removed exactly when it is gone |
| `Inventory.StatesPointwise` | services/rmc-inventory/core/DefaultInventoryManager.cpp:105-133 | A refresh decides each attempted source's state from its own outcome and leaves the others |
| `RefreshLoop.DeferredIffEarly` | services/rmc-inventory/service/InventoryService.cpp:402-412 | A cycle is deferred if and only if it is forced and early |
| `RefreshLoop.FileChangeNoticed` | services/rmc-inventory/service/InventoryService.cpp:373-376 | A consumed file change puts the loop on its way to a refresh |
| `RefreshLoop.RequestDuringRefreshStaysPending` | services/rmc-inventory/service/InventoryService.cpp:402-428 | A raised request flag survives every action except the clearing step of a newly admitted cycle |
| `RefreshLoop.DeferredRequestWakes` | services/rmc-inventory/service/InventoryService.cpp:307-315 | A throttled request starts no refresh, keeps its flag and sets the next wake time within the interval |
| `Witnesses.LldpSurfacesLocalMac` | services/network-observation/core/engine/ObservationModelEngine.cpp:237-257 | Concrete run in which an LLDP announcement makes a local MAC visible |
| `Witnesses.RemovedLinkReportsVisibleNeighbour` | services/network-observation/core/engine/ObservationModelEngine.cpp:100-108 | Concrete run in which a removed link reports a still visible neighbour as removed |
| `Witnesses.EarlyKeepaliveResurrects` | services/network-observation/core/engine/ObservationModelEngine.cpp:248-257 | A keepalive while initializing makes a carried-over identity visible after going live, which a new engine would not show |
| `Witnesses.ThirdFamilyDiverges` | services/network-observation/inputs/netlink/state/NetlinkState.cpp:40-64 | With a third address family two table keys share one CIDR and the filter is not invisible |
| `Publication.PublicationQueue.Mark` | services/network-observation/service/PublicationQueue.h:78-96 | Last writer per key wins, other keys keep their intent; a closed queue ignores the mark |
| `Publication.PublicationQueue.TryTake` | services/network-observation/service/PublicationQueue.h:104-105 | The whole pending map is taken at once, or nothing when it is empty |
| `Publication.PublicationQueue.Close` | services/network-observation/service/PublicationQueue.h:121 | Closing keeps what is pending |
| `Publication.PublicationQueue.Reopen` | services/network-observation/service/PublicationQueue.h:113-121 | Reopening gives a fresh open queue |
| `Publication.ObservationService.OnModelEvent` | services/network-observation/service/ObservationService.cpp:352-386 | Each model event turns the pending map into exactly the marked map the coherence proofs use |
| `Publication.DispatchPublication` | services/network-observation/service/PublicationQueue.h:130-149 | One call per pending key with its own intent, strictly increasing, interfaces first, then local state, then candidates |
| `ObservationEngine.ObservationModelEngine.constructor` | services/network-observation/core/engine/ObservationModelEngine.cpp:65-72 | A new engine is initializing and empty |
| `ObservationEngine.ObservationModelEngine.OnLinkObservation` | services/network-observation/core/engine/ObservationModelEngine.cpp:83-115 | State and emitted batch are those of the link step the invariants are proved about |
| `ObservationEngine.ObservationModelEngine.OnAddressObservation` | services/network-observation/core/engine/ObservationModelEngine.cpp:117-152 | State and batch are those of the address step |
| `ObservationEngine.ObservationModelEngine.CollectPublishableWithIp` | services/network-observation/core/engine/ObservationModelEngine.cpp:136-143 | Collects exactly the visible candidates that hold the IP |
| `ObservationEngine.ObservationModelEngine.ReconcileAffectedByLocalIp` | services/network-observation/core/engine/ObservationModelEngine.cpp:443-450 | Hides exactly the candidates that hold the IP |
| `ObservationEngine.ObservationModelEngine.GetOrCreateCandidate` | services/network-observation/core/engine/ObservationModelEngine.cpp:460-467 | Returns the stored candidate or a new provisional one |
| `ObservationEngine.ObservationModelEngine.Commit` | services/network-observation/core/engine/ObservationModelEngine.cpp:187-194 | Erase, or reclassify and settle, with the batch that reports it |
| `ObservationEngine.ObservationModelEngine.OnNeighborObservation` | services/network-observation/core/engine/ObservationModelEngine.cpp:158-198 | State and batch are those of the neighbour step |
| `ObservationEngine.ObservationModelEngine.OnFdbObservation` | services/network-observation/core/engine/ObservationModelEngine.cpp:200-235 | State and batch are those of the FDB step |
| `ObservationEngine.ObservationModelEngine.OnLldpObservation` | services/network-observation/core/engine/ObservationModelEngine.cpp:237-301 | State and batch are those of the LLDP step, keepalives included |
| `ObservationEngine.ObservationModelEngine.AgeCandidate` | services/network-observation/core/engine/ObservationModelEngine.cpp:337-352 | Moves one candidate along the aging rule and records what a client will notice |
| `ObservationEngine.ObservationModelEngine.Age` | services/network-observation/core/engine/ObservationModelEngine.cpp:331-356 | The loop ages every candidate exactly once and reports exactly the visible moves |
| `ObservationEngine.ObservationModelEngine.WipeCandidates` | services/network-observation/core/engine/ObservationModelEngine.cpp:367-384 | The loop forgets everything but identity and timestamps of every candidate and reports exactly those that were visible |
| `ObservationEngine.ObservationModelEngine.PrepareForRestart` | services/network-observation/core/engine/ObservationModelEngine.cpp:358-387 | State and batch are those of the restart step |
| `ObservationEngine.ObservationModelEngine.PromoteCandidates` | services/network-observation/core/engine/ObservationModelEngine.cpp:396-413 | The erasing loop promotes or drops each provisional candidate and keeps tombstones |
| `ObservationEngine.ObservationModelEngine.MarkLive` | services/network-observation/core/engine/ObservationModelEngine.cpp:389-416 | State and batch are those of the go-live step |
| `ObservationEngine.ObservationModelEngine.FindCandidateByMac` | services/network-observation/core/engine/ObservationModelEngine.cpp:320-325 | Hidden candidates do not exist for a client |
| `ObservationEngine.ObservationModelEngine.ListRemoteCandidates` | services/network-observation/core/engine/ObservationModelEngine.cpp:312-318 | The loop returns exactly the visible candidates |
| `LocalStateTracking.LocalStateTracker.IncrementMac` | services/network-observation/core/engine/LocalStateTracker.cpp:21-25 | One more reference for a non-empty MAC, all others unchanged |
| `LocalStateTracking.LocalStateTracker.DecrementMac` | services/network-observation/core/engine/LocalStateTracker.cpp:27-35 | One reference fewer, the entry goes with the last one |
| `LocalStateTracking.LocalStateTracker.IncrementIp` | services/network-observation/core/engine/LocalStateTracker.cpp:37-40 | One more reference for the IP |
| `LocalStateTracking.LocalStateTracker.DecrementIp` | services/network-observation/core/engine/LocalStateTracker.cpp:42-49 | One reference fewer, the entry goes with the last one |
| `LocalStateTracking.LocalStateTracker.ReleaseAddresses` | services/network-observation/core/engine/LocalStateTracker.cpp:61-68 | The loop releases each CIDR's IP once, whatever the order |
| `LocalStateTracking.LocalStateTracker.RemoveInterface` | services/network-observation/core/engine/LocalStateTracker.cpp:56-71 | Removing an interface releases its MAC and all its addresses |
| `LocalStateTracking.LocalStateTracker.OnLinkObservation` | services/network-observation/core/engine/LocalStateTracker.cpp:55-99 | New state and return value are those of the link step |
| `LocalStateTracking.LocalStateTracker.OnAddressObservation` | services/network-observation/core/engine/LocalStateTracker.cpp:105-137 | New state and return value are those of the address step |
| `LocalStateTracking.LocalStateTracker.IsLocalMac` | services/network-observation/core/engine/LocalStateTracker.cpp:143-145 | True exactly for MACs with a reference |
| `LocalStateTracking.LocalStateTracker.IsLocalIp` | services/network-observation/core/engine/LocalStateTracker.cpp:147-149 | True exactly for IPs with a reference |
| `LocalStateTracking.LocalStateTracker.Clear` | services/network-observation/core/engine/LocalStateTracker.cpp:151-155 | Back to the empty state |
| `NetlinkTables.NetlinkState.EraseAddresses` | services/network-observation/inputs/netlink/state/NetlinkState.cpp:25-27 | The loop erases exactly the addresses of the removed interface |
| `NetlinkTables.NetlinkState.UpdateLink` | services/network-observation/inputs/netlink/state/NetlinkState.cpp:20-38 | New tables and pass verdict of the link filter |
| `NetlinkTables.NetlinkState.UpdateAddress` | services/network-observation/inputs/netlink/state/NetlinkState.cpp:40-64 | New tables and pass verdict of the address filter |
| `NetlinkTables.NetlinkState.UpdateFdb` | services/network-observation/inputs/netlink/state/NetlinkState.cpp:66-94 | New tables, pass verdict and emitted device event of the FDB filter |
| `NetlinkTables.NetlinkState.UpdateNeighbor` | services/network-observation/inputs/netlink/state/NetlinkState.cpp:96-141 | New tables, pass verdict and emitted device event of the neighbour filter |
| `NetlinkTables.NetlinkState.RefreshMergedDevice` | services/network-observation/inputs/netlink/state/NetlinkState.cpp:143-202 | Recomputes one device and reports exactly a change |
| `NetlinkTables.NetlinkState.Clear` | services/network-observation/inputs/netlink/state/NetlinkState.cpp:232-240 | All tables are empty again |
| `LldpCache.DiffRemovedNeighbors` | services/network-observation/inputs/lldp/lldpd/LldpNeighborCache.cpp:91-104 | Each pair of the old cache missing from the current one appears exactly once with its old entry; a re-seen neighbour never appears |
| `LldpCache.DiffRemovedOn` | services/network-observation/inputs/lldp/lldpd/LldpNeighborCache.cpp:91-104 | The inner loop of the diff, for one interface |
| `LldpCache.LldpNeighborCache.Apply` | services/network-observation/inputs/lldp/lldpd/LldpNeighborCache.cpp:13-36 | Caches or erases under the resolved identity, says whether it was cacheable, keeps entries keyed |
| `LldpCache.LldpNeighborCache.FlushInterface` | services/network-observation/inputs/lldp/lldpd/LldpNeighborCache.cpp:38-56 | Forgets the interface and returns what was cached on it |
| `LldpCache.LldpNeighborCache.Exchange` | services/network-observation/inputs/lldp/lldpd/LldpNeighborCache.cpp:58-64 | Swaps contents, returning the previous ones, and always moves the generation |
| `LldpCache.LldpNeighborCache.Clear` | services/network-observation/inputs/lldp/lldpd/LldpNeighborCache.cpp:66-73 | Empties; moves the generation only if something was there |
| `LldpCache.LldpNeighborCache.Snapshot` | services/network-observation/inputs/lldp/lldpd/LldpNeighborCache.cpp:75-83 | Contents together with the generation they belong to |
| `LldpIdentity.IsMacLike` | services/network-observation/core/LldpUtils.h:24-34 | The scan decides the 17-character MAC shape |
| `LldpIdentity.NormalizeMac` | services/network-observation/core/LldpUtils.h:39-45 | The loop lower-cases every character in order |
| `ObservationQueue.BoundedObservationQueue.constructor` | services/network-observation/service/BoundedObservationQueue.h:31-36 | A new queue is open, empty and unmarked |
| `ObservationQueue.BoundedObservationQueue.Push` | services/network-observation/service/BoundedObservationQueue.h:42-44 | Drop-oldest push with the dropped item's bit raised; false exactly on a drop |
| `ObservationQueue.BoundedObservationQueue.TryPop` | services/network-observation/service/BoundedObservationQueue.h:52-53 | Oldest item first |
| `ObservationQueue.BoundedObservationQueue.DiscardAll` | services/network-observation/service/BoundedObservationQueue.h:55-61 | Empties the queue and raises no bit |
| `ObservationQueue.BoundedObservationQueue.TakeResyncMask` | services/network-observation/service/BoundedObservationQueue.h:69-74 | Takes all bits and leaves none |
| `ObservationQueue.BoundedObservationQueue.RaiseResync` | services/network-observation/service/BoundedObservationQueue.h:80-88 | Puts one bit back |
| `ObservationQueue.BoundedObservationQueue.Close` | services/network-observation/service/BoundedObservationQueue.h:98 | Closing changes nothing else |
| `ObservationQueue.BoundedObservationQueue.Reopen` | services/network-observation/service/BoundedObservationQueue.h:90-96 | A fresh open generation |
| `LldpSupervision.LldpSupervisor.ReconnectLldp` | services/network-observation/service/NetlinkLldpObservationRuntime.cpp:464-487 | A throttled call attempts nothing and counts as nothing; success clears the failure count |
| `LldpSupervision.LldpSupervisor.Acquire` | services/network-observation/service/NetlinkLldpObservationRuntime.cpp:429-449 | Throttled re-acquire; a new observer inherits no throttle and no failures |
| `LldpSupervision.LldpSupervisor.SuperviseLldp` | services/network-observation/service/NetlinkLldpObservationRuntime.cpp:373-450 | The tick's new state is the supervision step the escalation proofs use |
| `LldpSupervision.LldpSupervisor.ResyncLldp` | services/network-observation/service/NetlinkLldpObservationRuntime.cpp:354-370 | Reconnects the installed observer and tells exactly when the bit goes back |
| `InventoryManager.IsSubsetOfOwnedFields` | services/rmc-inventory/core/InventorySourceUtil.cpp:7-14 | The search loop decides whether all fields are owned |
| `InventoryManager.GetUndeclaredFields` | services/rmc-inventory/core/InventorySourceUtil.cpp:16-24 | The loop lists exactly the fields that are not owned |
| `InventoryManager.HasMetadataField` | services/rmc-inventory/core/DefaultInventoryManager.cpp:58-103 | The loop decides whether a reserved field was collected |
| `InventoryManager.CollectSource` | services/rmc-inventory/core/DefaultInventoryManager.cpp:58-103 | One source's result and state after its answer: reserved fields fail it, undeclared ones are dropped, and it is OK exactly if the result counts |
| `InventoryManager.DiffSourceOwnedFields` | services/rmc-inventory/core/DefaultInventoryManager.cpp:206-223 | The loops collect exactly the changed and the removed fields |
| `InventoryManager.DefaultInventoryManager.ValidateSource` | services/rmc-inventory/core/DefaultInventoryManager.cpp:180-204 | Accepts exactly the registrable sources, and otherwise names the first fault in the order of the checks |
| `InventoryManager.DefaultInventoryManager.AddSource` | services/rmc-inventory/core/DefaultInventoryManager.cpp:37-45 | A rejected source leaves no trace; an accepted one is appended with its ownership |
| `InventoryManager.DefaultInventoryManager.ClaimFields` | services/rmc-inventory/core/DefaultInventoryManager.cpp:203 | The loop claims every declared field for the source |
| `InventoryManager.DefaultInventoryManager.AllRequiredSourcesOk` | services/rmc-inventory/core/DefaultInventoryManager.cpp:225-235 | True exactly when every required source has an OK state |
| `InventoryManager.DefaultInventoryManager.MergeResults` | services/rmc-inventory/core/DefaultInventoryManager.cpp:105-133 | The loop computes the merge of all results |
| `InventoryManager.DefaultInventoryManager.RefreshAll` | services/rmc-inventory/core/DefaultInventoryManager.cpp:47-153 | New fields, states, version, timestamp, readiness and phase of one refresh |

## Left out

- `LldpSource.ViewEqualsCache`: assumes orderly runs, which `LldpSource.OrderlyExact` shows to be exactly those without opposite news under way; the interface allow-list and the emit-removals switch of the source configuration are not modelled.
- `Dedup.DedupInvisible`: link events with an empty interface name and address families other than IPv4 and IPv6 are outside, because there the filter is visible (`Witnesses.ThirdFamilyDiverges`); entries without link data and addresses are ignored.
- `ClientCoherence.LocalClientExact`: the local snapshot is read per interface and for the MAC and IP sets; the rest of a client is not modelled.
- `Resync.ResyncNeverLost`: items removed by `discardAll` are outside this claim; `Resync.LossNeverForgotten` covers them.
- `EngineRestart.RestartEqualsFreshStart`: excludes keepalives that arrive while initializing, which do tell the engines apart.
- `LldpCache.EqualGenerationsEqualContents`: generations and versions are unbounded; 64-bit wrap-around is not modelled.
- Concurrent protocols (client path, LLDP source, watch supervisor, resync, refresh loop) are state machines on values: update in place and aliasing inside them are not captured there; the sequential parts are classes.
- Changing classifier or interface policy at run time, the scoring classifier and the candidate score.
- Hard-filter address tests and interface-name prefixes.
- D-Bus transports, codecs, query handlers and binding leases.
- Netlink sockets, dumps and parsers; LLDP connections and watch internals.
- Admission gates, lifecycle coordination, worker threads, service start and stop, a stop that times out, issue reporting.
- File-backed inventory sources, JSON, publishing of inventory diffs; a source's owned fields are taken as fixed.
