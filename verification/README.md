# An IPv6 relay daemon and its kernel, in Dafny

The daemon relays Router Advertisements, DHCPv6 and Neighbor Discovery between upstream ("master") and downstream
("slave") interfaces. Everything that changes relay state is a closure on one event queue, so the project describes
the daemon as a machine whose atomic steps act on the interface table, the set of mirrored hosts, an abstract kernel
(proxy-NDP entries, /128 routes with metric and device, neighbour states, proxy_ndp flags) and a runtime
(descriptors, done channels, pending timers and queued closures). Whatever the environment decides is a parameter of
a step: which system call fails, what a listing returns, in which order a map is walked, which changes the kernel
refuses, when a timer expires, what an outside program does to the kernel.

There are two layers.

* The program, in the form of the source: class `Interfaces.Interface` (one record, its fields updated in place),
  class `Process.Relayd` (the `interfaces` map, `mirroredNeighs` and `reconcileScheduled`, with the loops of
  netlink.go and config.go), and in `Handlers`, `Dhcpv6`, `RouterAdvert` and `LinkAddress` the methods that process
  packets, buffers and address lists. Each method is proved equal, for every starting state, to a step function on
  values: `View(w') == Step function(old(View(w)), ...)`. Kernel and runtime lie outside the process and are passed in
  and out as values. `Loops` holds what one more turn of each loop adds.
* The step functions (`Model`, `Services`, `Mirror`, `LinkLocal`, `Daemon`) and the theorems about all runs of them:
  `Ownership`, `Lifecycle`, `Aging` (sockets, descriptors, timers), `Agreement`, `Tracking`, `MirrorRuns`, `Healing`,
  `Wakeup`, `StaleIndex`, `SweepCorrectness` (the mirror), `Outcomes`, `Configuring`, `FinalPass` and `Leftovers` (what
  reloads and link events amount to, phase by phase, and what they leave behind), `Events` (single events), `Packets`
  and `Filter` (what packets cause).

What the step functions mean is stated once more without the model's own definitions of the matter: in terms of bytes
and numbers for packets and addresses (`Addresses.UnmapBytes`, `Dhcpv6.WrapBytes`, `Dhcpv6.UnwrapBytes`,
`RouterAdvert.RewriteBytes`, `Packets.IcmpForwarding`, `Packets.DhcpForwarding`, `Packets.SolicitationProbes`), and of
fields and kernel tables for the rest (`Mirror.MirrorExactly`, `Wakeup.WakeStep`, `SweepCorrectness.SweepProbes`, and
the lemmas of `Events`).

A run (`Daemon.Run`) is any sequence of reloads, link, address, neighbour and route events, packets, sweeps, timer
expiries, queued closures and outside changes to the kernel, each enabled where it happens.

## Where the code falls short of a natural reading

These statements are false of the code in general. Each comes with the exact condition under which it holds, and with
a concrete family of failures where that helps.

* A DHCPv6 reply reaches the client it answers: `relayServerResponse` takes bytes 2..18, the link-address field of
  section 9 of RFC 8415, where the layout comment at dhcpv6.go:179 and the RFC put the peer-address at 18..34.
  `Dhcpv6.ReplyReachesClientIff`, `Dhcpv6.ReplyMissesClient`.
* Proxy entries and routes agree with the tracked hosts after every change: removal drops proxy entries by address,
  and a kernel route replacement ignores the device. `Agreement.AddAgreesIff`, `Agreement.RemoveAgreesIff`,
  `Agreement.SharedAddressLosesProxy`.
* A reconcile restores everything: two targets may compete for one route. `Healing.ReconcileHealsIff`; a host seen
  behind two slaves is such a case, `Healing.SharedAddressNeverHeals`.
* A reconcile only adds: it may displace a competitor's route, as in that case. `Healing.ReconcileOnlyAdds`.
* Tracked hosts never carry the index of no interface: closing an interface keeps its keys. `StaleIndex.ClosingStaleIff`
  for one closing, `Leftovers.StaleIffUncovered` for a reload; it fails when a reload drops an interface with a tracked
  host, `Outcomes.DroppedHostStale`, and when the configuration file cannot be read, `Outcomes.UnreadableConfiguration`.
* A master relays only while it has a slave: interfaces about to be closed count, and the master role of an entry that
  does not name it is remembered. `Outcomes.ReloadOutcome`; it fails with a slave that is dropped,
  `Outcomes.DroppedSlaveCounts`, and with a new entry that is rejected, `Outcomes.RejectedEntryCounts`.
* After a reload proxy_ndp is on wherever NDP is relayed: an interface on the same netdev that goes down later in the
  final pass switches it off again. `Leftovers.ReloadFlagsIff`; two interfaces on one netdev, of which the configuration
  keeps the first visited, are such a case, `Leftovers.SharedNetdevLosesFlag`.
* After a reload routes and proxy entries fit the new roles: those of hosts tracked before stay as they were.
  `Leftovers.LeftoverRoutesIff`, `Leftovers.LeftoverProxiesIff`; so they do when an interface is told to learn no more
  routes, `Leftovers.LearningSwitchedOff`, or to be no more a master, `Leftovers.MasterSwitchedOff`.
* Mirror calls for one host alternate: a sweep also takes away routes to hosts that are not tracked.
  `Tracking.CallsAlternate`.
* A lifetime of 0 means "for ever" only where the clock does not read 0. `LinkAddress.ZeroClockAmbiguous`.
* A probe leaves the routes as they were: a foreign route of metric 128 is lost, and the temporary route stays if the
  kernel refuses to remove it. `Packets.ProbeLoopRoutesIff`.
* The hop limit of 32 is that of section 5.5 of RFC 3315; section 7.6 of RFC 8415 says 8. The model follows the code.

## Model

| member | source | states |
|---|---|---|
| Interfaces.Interface.SetInterfaceDefaults | internal/relay/iface.go:89-96 | the record becomes the one with every service relaying; master role and sockets stay |
| Interfaces.Interface.GetLinkLocalAddr | internal/relay/iface.go:112-126 | answers the cached address or the first usable one and remembers it; with an agreeing cache this is what an uncached search finds |
| Interfaces.Interface.UpdateLinkLocalState | internal/relay/config.go:79-88 | the flag holds iff some cached address is link-local, and the cached source is dropped |
| Interfaces.Interface.RefreshInterfaceAddresses | internal/relay/config.go:74-77 | the new list with flag and cached source derived from it |
| Interfaces.Interface.RouterSetup | internal/relay/router.go:34-126 | the record and the runtime after every outcome of every system call, timer generation included |
| Interfaces.Interface.Dhcpv6Setup | internal/relay/dhcpv6.go:43-111 | the record and the runtime after every outcome of every system call |
| Interfaces.Interface.NdpSetup | internal/relay/ndp.go:78-171 | record, runtime and proxy_ndp flag after every outcome, with both descriptors closed on every late failure |
| Interfaces.Interface.SolicitTimerFire | internal/relay/router.go:128-156 | a closure of generation `gen` sends, re-arms or does nothing, as the step function of the timer theorems says |
| Process.Relayd.NdpMirrorAddr | internal/relay/netlink.go:536-562 | in any map order, exactly the entries, flags and route that mirroring the address calls for, nothing else |
| Process.Relayd.IfaceByIndex | internal/relay/iface.go:68-75 | some interface with the index, or none if and only if there is none |
| Process.Relayd.IfaceByIfname | internal/relay/iface.go:77-84 | some interface on the netdev, or none if and only if there is none |
| Process.Relayd.HandleNeighEvent | internal/relay/netlink.go:451-495 | the neighbour step on an interface with the event's index, or nothing |
| Process.Relayd.SeedMirroredNeighbors | internal/relay/netlink.go:622-659 | tracks and mirrors exactly the resolved, mirrorable, untracked neighbours of the interface |
| Process.Relayd.SweepIfaceFailedAndOrphans | internal/relay/netlink.go:162-242 | the whole sweep of one interface, for any order of both listings and either listing failing |
| Process.Relayd.SweepFailedAndOrphans | internal/relay/netlink.go:146-153 | the periodic sweep: every interface visited once, in some order, and swept if it relays NDP |
| Process.Relayd.ScheduleReconcile | internal/relay/netlink.go:276-287 | the flag is set, and a timer is armed exactly when it was not |
| Process.Relayd.HandleRouteEvent | internal/relay/netlink.go:260-271 | schedules exactly on deletion of a /128 of the daemon's metric on an interface that relays NDP |
| Process.Relayd.RunReconcile | internal/relay/netlink.go:281-286 | the flag is cleared, the closure consumed and the reconcile made over a complete list of targets |
| Process.Relayd.ReconcileKernelState | internal/relay/netlink.go:295-330 | the three loops, in any order, re-assert a list that holds targets only and leaves out none |
| Process.Relayd.ClearMirroredState | internal/relay/netlink.go:417-433 | own addresses lose their mirror, and exactly the tracked hosts of the index go |
| Process.Relayd.HandleLinkEvent | internal/relay/netlink.go:335-382 | deletion, running change and index change of an interface on the named netdev, or nothing |
| Process.Relayd.HandleAddrEvent | internal/relay/netlink.go:387-415 | IPv4 and unknown indexes change nothing; otherwise the list is read anew and an eligible address mirrored |
| Process.Relayd.FindOrCreateInterface | internal/relay/config.go:106-115 | the record under the name, or a fresh one with defaults and an identity never used before |
| Process.Relayd.ParseInterfaceJSON | internal/relay/config.go:118-157 | one entry, with its two error returns and the teardown before moving to another netdev |
| Process.Relayd.LoadConfigJSON | internal/relay/config.go:178-182 | all entries in the order they come, failing ones skipped |
| Process.Relayd.CloseInterface | internal/relay/config.go:187-198 | the record leaves the table and holds no socket and no timer afterwards, tracked keys stay |
| Process.Relayd.ReloadServices | internal/relay/config.go:202-214 | all three services restarted on a running interface, taken down otherwise |
| Process.Relayd.DisableServices | internal/relay/config.go:216-220 | all three services taken down, without a step that could fail |
| Process.Relayd.Reload | internal/relay/config.go:225-274 | the reload step for some order that visits each configured interface exactly once |
| Process.Relayd.NdpSetup | internal/relay/ndp.go:78-176 | sockets, flag and, when the sockets come up, the seeding |
| Process.Relayd.RunSolicitation | internal/relay/router.go:118-123 | the posted closure of a configured record, or of a closed one, on which it does nothing |
| Handlers.ForwardRouterSolicitation | internal/relay/router.go:183-190 | a solicitation on exactly the other masters that relay with a socket, each with its own MAC |
| Handlers.ForwardRouterAdvertisement | internal/relay/router.go:229-245 | a copy on exactly the other relaying slaves, each rewritten to that slave's MAC and no other |
| Handlers.RouterSolicitation | internal/relay/router.go:161-179 | parses as a solicitation with exactly one option, of type 1 with the MAC, or with none |
| Handlers.HandleICMPv6 | internal/relay/router.go:304-325 | sends exactly the effects of the packet; none for a stale record, a short packet or a non-zero code |
| Handlers.RelayLinkAddressOrZero | internal/relay/dhcpv6.go:239-244 | the chosen address, or the unspecified one iff no cached address is usable |
| Handlers.ReplyDownstream | internal/relay/dhcpv6.go:215-232 | one send on the slave with the Interface-Id's index if that slave has a socket, else nothing |
| Handlers.RequestUpstream | internal/relay/dhcpv6.go:301-307 | the envelope on exactly the masters that relay DHCPv6 with a socket |
| Handlers.HandleDHCPv6 | internal/relay/dhcpv6.go:159-170 | exactly the effects of the packet for its record, role and lookups |
| Handlers.RelayPing | internal/relay/ndp.go:293-306 | a route that comes and goes, and iff the sockets are up a probe, from the link-local address iff that is wanted and one is known |
| Handlers.HandleSolicit | internal/relay/ndp.go:243-288 | exactly the routes, probes and state change of the packet, over all other relaying interfaces once each; nothing at all for a stale, foreign or invalid one |
| Mirror.MirrorExactly | internal/relay/netlink.go:536-562 | which entries, routes of metric 1024 and flags are there afterwards, by roles, modes and refusals alone |
| Mirror.MirrorOneMore | internal/relay/netlink.go:536-562 | mirroring a set and then one more address is mirroring the larger set, whatever the kernel refuses |
| Ownership.RouterSetupExchanges | internal/relay/router.go:34-126 | every outcome closes what was held, leaks nothing, and disturbs no other interface's handles or timers |
| Ownership.RouterSetupSolicits | internal/relay/router.go:112-123 | afterwards the solicitation counter fits the newest generation, whatever it was before |
| Ownership.DhcpSetupExchanges | internal/relay/dhcpv6.go:43-111 | every outcome closes what was held and leaks nothing |
| Ownership.NdpSetupExchanges | internal/relay/ndp.go:78-176 | every outcome closes both descriptors held before and leaks neither of the new ones |
| Lifecycle.ReloadServicesRedone | internal/relay/config.go:202-214 | whatever state the interface was in, its sockets afterwards fit link state, mode, index and role |
| Lifecycle.RestartAllSettles | internal/relay/config.go:264-273 | the final pass settles every interface, however configuration left them |
| Lifecycle.ReloadKeeps | internal/relay/config.go:225-274 | a reload keeps the lifecycle invariant, for every configuration, order and failure |
| Lifecycle.HandleLinkKeeps | internal/relay/netlink.go:335-382 | a link event keeps the lifecycle invariant, for every failure |
| Lifecycle.StepKeeps | internal/relay/engine.go:22-32 | every engine step keeps it |
| Lifecycle.RunKeeps | internal/relay/engine.go:22-32 | so does every run |
| Lifecycle.LifecycleHolds | internal/relay/engine.go:22-32 | from the empty table on: sockets only on running relaying interfaces, of the current index, in the group of the role; one owner per handle; caches agree; one pending reconcile at most |
| Aging.SendsOnlyCurrent | internal/relay/router.go:128-150 | a timer-driven send needs the newest generation, a master with an open relaying socket and a link-local address |
| Aging.SupersededNeverSends | internal/relay/router.go:117-131 | a superseded generation never sends again in any run |
| Aging.SolicitationBounds | internal/relay/router.go:110-156 | in every reachable state a generation has one timer or closure at most and sent three times at most |
| Aging.DescriptorsConserved | internal/relay/rawsock.go:152-157 | open handles are exactly the disjoint union of those held; every other issued one was closed exactly once |
| Aging.RetiredForever | internal/relay/rawsock.go:152-157 | a closed handle is never open again |
| Aging.LostRecordRetired | internal/relay/router.go:37-41 | the step that takes a socket record from an interface closes its channel |
| LinkLocal.LinkLocalMeans | internal/relay/iface.go:112-126 | an agreeing cache answers the first address of fe80::/10 that is not tentative, if there is one |
| Aging.LinkLocalCacheCorrect | internal/relay/iface.go:112-126 | in every reachable state the cached answer is the uncached one, by its bytes a link-local address of the interface, and the flag tells the truth |
| Outcomes.ServicesUpIff | internal/relay/config.go:202-214 | after a restart a service has its sockets iff the interface runs, relays it and no step failed |
| Outcomes.LinkApplied | internal/relay/netlink.go:358-382 | index and running flag are those announced, the address list is the one read iff the index changed or the link came up, every other setting of every interface stays |
| Outcomes.LinkDeletion | internal/relay/netlink.go:340-356 | a deletion of the interface's index leaves it without index, link, addresses, sockets and tracked hosts; any other changes nothing |
| Events.ReloadAddrs | internal/relay/config.go:118-142 | after a reload the addresses are those read for the entry if it names a netdev, and those before otherwise |
| Events.AddrEvent | internal/relay/netlink.go:387-415 | IPv4 changes nothing; otherwise the list is the one read, and exactly an address to be mirrored is mirrored when it comes and unmirrored when it goes |
| Events.OwnAddressesCleared | internal/relay/netlink.go:417-427 | an interface that leaves its netdev takes the entries and routes of its own addresses along |
| Events.NeighEvent | internal/relay/netlink.go:451-495 | which of the six resolved states and of the addresses count, what is tracked, mirrored and deleted from the neighbour table |
| Events.Firing | internal/relay/router.go:128-156 | who sends, when an attempt counts and when the timer is armed again, up to the third |
| Events.RouterTeardown | internal/relay/router.go:37-49 | no socket is left, and the timer the interface has is taken away |
| Outcomes.ConfigureOutcome | internal/relay/config.go:225-262 | before the final pass, for accepted, rejected and missing entries alike: who is in use, which roles and settings each has, which services each relays |
| Outcomes.ReloadOutcome | internal/relay/config.go:225-274 | exactly the interfaces with a usable entry remain, with its settings, remembered master roles and defaults; a master relays iff some name, old or in an entry, kept or not, ends up as a slave |
| Outcomes.UnclaimedSlaveCounts | internal/relay/config.go:233-262 | a name that is not kept but ends up as a slave keeps every master relaying |
| Outcomes.DroppedSlaveCounts | internal/relay/config.go:233-262 | such is a slave that the configuration drops |
| Outcomes.RejectedEntryCounts | internal/relay/config.go:106-130 | such is a new entry whose netdev does not exist or that names none |
| Outcomes.DroppedHostStale | internal/relay/config.go:264-267 | a reload that drops the only interface with an index leaves its tracked hosts stale |
| Outcomes.UnreadableConfiguration | internal/relay/config.go:225-231 | without a readable configuration every interface goes and every tracked host stays |
| Outcomes.ThreeSolicitations | internal/relay/router.go:110-156 | over runs of expiries and posted closures, a master with a link-local address sends exactly three solicitations, then has no timer |
| Agreement.AddAgreesIff | internal/relay/netlink.go:476-482 | adding a host keeps kernel and tracked set in agreement iff no other interface tracks the address |
| Agreement.RemoveAgreesIff | internal/relay/netlink.go:488-492 | removing one keeps agreement iff no other interface tracks it over a common master |
| Agreement.SharedAddressLosesProxy | internal/relay/netlink.go:537-553 | with two slaves and a master, a host seen behind both and failing on one loses its proxy entry |
| Agreement.EmptyAgrees | internal/relay/netlink.go:23 | the empty tracked set agrees with a kernel without entries of the daemon |
| Tracking.CallsExplain | internal/relay/netlink.go:476-494 | the recorded mirror calls are those made: they account for kernel and tracked set |
| Tracking.ApplyFollowsVerdict | internal/relay/netlink.go:417-494 | a host is tracked after a change of the tracked set iff the change resolved it, or did not decide and it was tracked; a call goes with it iff that is news, or an orphan is removed |
| Tracking.SweepOperations | internal/relay/netlink.go:162-242 | a sweep is a reaping and an orphan removal, a clearing ends in forgetting the hosts of the interface |
| Tracking.CallsAlternate | internal/relay/netlink.go:14-17 | over every change of the tracked set, mirror calls per host alternate, starting with add, iff no sweep removed the route to the host while it was not tracked |
| MirrorRuns.StepAgrees | internal/relay/netlink.go:451-495 | each undisturbed event keeps entries and routes those the tracked hosts call for |
| MirrorRuns.RunAgrees | internal/relay/netlink.go:436-495 | so does every interleaving of neighbour events, sweeps, links that come up, reconciles, packets, timers and kernel neighbour changes |
| MirrorRuns.StepTracked | internal/relay/netlink.go:451-495 | after an event a host is tracked iff it appears, or was tracked and does not disappear |
| MirrorRuns.TrackedIffAppeared | internal/relay/netlink.go:436-443 | at every point of every run, reloads included, tracked iff some event made it appear and no later one disappear |
| Healing.ReconcileHealsIff | internal/relay/netlink.go:295-330 | from any kernel, everything is restored iff no two targets compete for a route |
| Events.HealedMeans | internal/relay/netlink.go:295-330 | restored means: every own address and tracked host with its entry and flag on every answering master and its route of metric 1024, and flags on wherever NDP sockets are up |
| Healing.ReconcileOnlyAdds | internal/relay/netlink.go:289-294 | for any list of targets, entries and flags are only added; no route goes iff for each owned one the last accepted target asking for its address, if any, asks for it |
| Healing.SecondReconcileIdle | internal/relay/netlink.go:289-294 | a second reconcile changes nothing iff its order ends with the same route for every address; without competition any order does |
| Healing.SharedAddressNeverHeals | internal/relay/netlink.go:295-330 | a host seen behind two slaves: no order restores everything, and one takes a route away |
| Wakeup.WakeStep | internal/relay/netlink.go:260-287 | one reconcile pending at most, the flag tells so, only the reconcile clears it; a deletion of a /128 of metric 1024 on an interface that relays NDP sets it, any other route event changes nothing |
| Wakeup.NoLostWakeup | internal/relay/netlink.go:260-287 | after such a deletion a reconcile has started since or exactly one is pending |
| Wakeup.FlushIsHealed | internal/relay/netlink.go:253-259 | over whole runs, a handled deletion of that kind with nothing pending was followed by a reconcile that restored everything |
| StaleIndex.StepFresh | internal/relay/netlink.go:373-381 | every step but a closing reload keeps tracked indexes current and positive |
| StaleIndex.RunNeverStale | internal/relay/config.go:132-141 | so does every run without closing reloads: deletion, return under a new index, move to another netdev |
| StaleIndex.ClosingStaleIff | internal/relay/config.go:187-198 | closing keeps all tracked keys, and none goes stale iff another interface has each key's index |
| SweepCorrectness.SweepReapsFailed | internal/relay/netlink.go:176-212 | no failed mirrorable neighbour is left, live ones and other interfaces' are kept |
| SweepCorrectness.SweepProbes | internal/relay/netlink.go:204-212 | a stale mirrorable neighbour of the interface is being probed, every other that had not failed is as it was |
| SweepCorrectness.WholeSweepProbes | internal/relay/netlink.go:146-212 | so for all listed relaying interfaces after a whole sweep |
| SweepCorrectness.SweepRoutes | internal/relay/netlink.go:214-241 | exactly which routes remain |
| SweepCorrectness.SweepLeavesNoOrphan | internal/relay/netlink.go:155-161 | each owned routable route left has a neighbour that is not failed |
| SweepCorrectness.SweepTracked | internal/relay/netlink.go:191-240 | exactly which hosts remain tracked; other interfaces' all do |
| SweepCorrectness.OrphanStaysAway | internal/relay/netlink.go:305-329 | a later reconcile revives a swept route iff it asks for it last, and then for an own address of an interface with that index |
| SweepCorrectness.WholeSweepSweeps | internal/relay/netlink.go:146-161 | after a whole sweep no listed relaying interface has a failed mirrorable neighbour or, routes listed and learnt, an orphan |
| SweepCorrectness.WholeSweepVisits | internal/relay/netlink.go:146-153 | every interface is visited |
| Configuring.ConfigureTracks | internal/relay/config.go:132-136 | the configuration phase forgets exactly the tracked hosts of interfaces it moves to another netdev |
| Configuring.ConfigureFlags | internal/relay/config.go:132-136 | it switches a flag off exactly when an interface leaves the netdev and the kernel lets it |
| Configuring.ConfigureSpares | internal/relay/config.go:132-136 | it leaves entries and routes of every address that no moving interface has or tracks |
| Configuring.ConfigureForgets | internal/relay/config.go:132-136 | the route of a host whose interface moves is gone, unless its removal is refused |
| Configuring.ConfigureOutset | internal/relay/config.go:225-262 | netdevs, roles, tracked hosts and flags before the final pass, read off the old state and the entries |
| Configuring.ReloadTracks | internal/relay/config.go:225-274 | exactly which hosts are tracked after a reload |
| FinalPass.VisitTracks | internal/relay/ndp.go:78-171 | the hosts one visit of the final pass begins to track |
| FinalPass.VisitFlags | internal/relay/ndp.go:87-143 | one visit switches the proxy_ndp flag of a netdev on, off or not at all |
| FinalPass.PassTracks | internal/relay/config.go:264-273 | after the pass tracked iff before, or resolved on the index of a visit that brings sockets up |
| FinalPass.PassFlags | internal/relay/config.go:264-273 | after the pass on iff some visit raises it and no later one clears it, or it was on and none clears it, whatever is refused |
| FinalPass.PassUp | internal/relay/config.go:202-214 | an interface has its NDP sockets up after the pass iff its visit brings them up |
| Leftovers.ReloadFlagsIff | internal/relay/ndp.go:87-143 | the flag of any netdev after a reload, read off old state, entries and order |
| Leftovers.ReloadUpIff | internal/relay/ndp.go:78-171 | whose NDP sockets are up after a reload, read off the same |
| Leftovers.UpFlagsIff | internal/relay/ndp.go:87-143 | with sockets up the flag is on iff some raising visit has no clearing one after it |
| Leftovers.LastVisitClears | internal/relay/ndp.go:87-92 | with an interface that goes down visited last, the flag of its netdev is off |
| Leftovers.SharedNetdevLosesFlag | internal/relay/config.go:264-273 | a reload after which an interface relays NDP with its sockets up and the flag off |
| Leftovers.ReloadLeavesEntries | internal/relay/config.go:225-274 | a tracked host whose address no moving interface has or tracks, and that is resolved nowhere new, stays tracked with the entries and routes it had |
| Leftovers.RolesAfter | internal/relay/config.go:139-155 | who learns routes and who answers for hosts afterwards, read off old state and entries |
| Leftovers.LeftoverRoutesIff | internal/relay/config.go:145-155 | such a host keeps a route it should not have iff its index learned routes and no entry makes it learn |
| Leftovers.LeftoverProxiesIff | internal/relay/config.go:145-155 | such a host keeps an entry it should not have iff a master answered for it there and none is to |
| Leftovers.LearningSwitchedOff | internal/relay/config.go:149-151 | an entry that switches route learning off leaves the route of a tracked host |
| Leftovers.MasterSwitchedOff | internal/relay/config.go:146-148 | an entry that takes the master role away leaves the proxy entry of a tracked host |
| Leftovers.StaleIffUncovered | internal/relay/config.go:225-274 | no tracked host goes stale iff the index of each is left by an interface that moves or covered by some usable entry |
| Dhcpv6.ScanReply | internal/relay/dhcpv6.go:191-213 | the loop notes exactly the well-formed options, in order |
| Dhcpv6.SerializeOptionsOf | internal/relay/dhcpv6.go:191-213 | every byte string is the serialisation of its options followed by a truncated tail |
| Dhcpv6.OptionsOfSerialize | internal/relay/dhcpv6.go:191-213 | serialised options with any truncated tail parse back to themselves |
| Dhcpv6.ScanReportsLast | internal/relay/dhcpv6.go:201-210 | the last 4-byte Interface-Id and the last Relay Message count, others are passed over |
| Dhcpv6.OrderIrrelevant | internal/relay/dhcpv6.go:201-210 | with one of each, the order of options does not matter |
| Dhcpv6.RelayServerResponse | internal/relay/dhcpv6.go:176-233 | what is to be sent, or nothing for each malformed reply |
| Dhcpv6.RelayClientRequest | internal/relay/dhcpv6.go:249-294 | the envelope built piece by piece, or nothing for short, server-sent and over-hopped messages |
| Dhcpv6.EnvelopeParsesIff | internal/relay/dhcpv6.go:283-294 | the envelope parses back to its two options iff the message fits 16 bits of length, as every message received does |
| Dhcpv6.WrapBytes | internal/relay/dhcpv6.go:249-294 | which messages are wrapped, by type and hop count, and the envelope byte by byte |
| Dhcpv6.UnwrapBytes | internal/relay/dhcpv6.go:176-233 | a Relay-reply byte by byte: interface number, inner message, port 547 or 546, destination |
| Dhcpv6.RelayRoundTrip | internal/relay/dhcpv6.go:176-308 | wrapped and answered, in numbers: back to the interface it came from with the server's bytes |
| Dhcpv6.ChainShape | internal/relay/dhcpv6.go:250-272 | k wraps of any message go through iff it is long enough, not server-sent and the hop count stays within 32, with 46 bytes and one hop per level |
| Dhcpv6.UnwrapAnswer | internal/relay/dhcpv6.go:215-232 | any reply carrying the recorded Interface-Id selects that interface and yields the inner bytes |
| Dhcpv6.FittingRoundTrip | internal/relay/dhcpv6.go:176-308 | one level of a nest around a message of any length that fits |
| Dhcpv6.NestedRoundTrip | internal/relay/dhcpv6.go:114-308 | for every message that fits the read buffer, level by level: recorded interface, exact inner bytes, port 547 for inner Relay-replies and 546 otherwise |
| Dhcpv6.ReplyReachesClientIff | internal/relay/dhcpv6.go:229 | the reply goes to the client iff the recorded link address is the client's; read from 18..34 it always does |
| Dhcpv6.ReplyMissesClient | internal/relay/dhcpv6.go:229 | a concrete reply that misses its client |
| RouterAdvert.FixSourceLinkAddrOption | internal/relay/router.go:198-223 | in place: the MAC in every well-formed type-1 option, no other byte changed |
| RouterAdvert.RewriteBytes | internal/relay/router.go:198-223 | in each option of type 1 met from byte 16 on, six bytes become the MAC; no other byte changes |
| RouterAdvert.RewriteKeepsParse | internal/relay/router.go:192-197 | length, header, malformed tail and the sequence of option types and lengths stay |
| RouterAdvert.RewriteUnique | internal/relay/router.go:198-223 | message and MAC determine the result |
| RouterAdvert.LaterRewriteWins | internal/relay/router.go:198-223 | a later rewrite overrides an earlier one |
| LinkAddress.LifetimeAbs | internal/relay/config.go:93-102 | for ever is 0; otherwise the end on the 32-bit clock, saturating |
| LinkAddress.ZeroClockAmbiguous | internal/relay/config.go:93-102 | exactly when the result is 0 |
| LinkAddress.FetchAddr6 | internal/relay/config.go:50-71 | one cached entry per listed address, in order |
| LinkAddress.RelayLinkAddress | internal/relay/iface.go:131-156 | none iff none is usable, else the first preferred one, else one of maximal validity |
| LinkAddress.UsableIffNotElapsed | internal/relay/iface.go:138-140 | usable in the cache iff not tentative, not elapsed and not beyond the clock |
| LinkAddress.ChosenIsLive | internal/relay/iface.go:131-156 | what is chosen later is neither tentative nor elapsed by the kernel's count |
| LinkAddress.PreferredIffStill | internal/relay/iface.go:131-156 | preferred in the cache iff the kernel still prefers it |
| LinkAddress.ChosenIsPreferred | internal/relay/iface.go:131-156 | as long as the kernel prefers some address, the first it prefers is chosen |
| LinkAddress.ChosenLasts | internal/relay/iface.go:131-156 | otherwise one that stays valid as long as any |
| Filter.NsFilterAccepts | internal/relay/ndp.go:26-33 | the program accepts iff byte 6 is 58 and byte 40 exists and is 135 |
| Filter.DropAllRejects | internal/relay/ndp.go:22-24 | nothing passes before the filter is attached |
| Addresses.UnmapBytes | internal/relay/ndp.go:259-263 | which address sixteen bytes denote, and whether it is a host's |
| Packets.IcmpForwarding | internal/relay/router.go:183-245 | types 133 and 134, other masters and other slaves that relay with a socket, and nothing else |
| Packets.DhcpForwarding | internal/relay/dhcpv6.go:215-308 | from a slave to port 547 of ff05::1:3 through every master, from a master to the slave it names, and nothing else |
| Packets.SolicitationProbes | internal/relay/ndp.go:243-306 | when a packet is probed for, by its bytes; for exactly the address in its bytes 48 to 64, with exactly these routes, probes, sources and steps, and otherwise nothing |
| Packets.StalePacketSilent | internal/relay/router.go:304-308 | a packet whose record was given up sends nothing, probes nothing, installs no route and changes no state, at any later point of any run |
| Packets.ReplacedSocketSilent | internal/relay/dhcpv6.go:159-163 | from the step on that takes the record away, so is each of its packets in any run |
| Packets.ProbeIff | internal/relay/ndp.go:243-288 | filter and handler together probe iff the packet is a valid solicitation and another interface can be probed |
| Packets.ProbeLoopRoutes | internal/relay/ndp.go:298-305 | exactly which routes the probe loop leaves, whichever additions and removals the kernel refuses |
| Packets.ProbeLoopLeavesNoTrace | internal/relay/ndp.go:283-306 | the probe loop leaves entries, neighbours and tracked hosts, and without a foreign metric-128 route the routes iff the last temporary one accepted may be removed |
| Packets.ProbeLoopRoutesIff | internal/relay/ndp.go:298-305 | when the routes stay, whatever is refused; if nothing is, a foreign metric-128 route survives iff no probe is sent |
| Packets.PacketRoutesIff | internal/relay/ndp.go:243-306 | whatever the packet and the refusals, routes stay iff nothing is to be probed for or the loop leaves the probing routes it finds |

## Left out

- Command line, signals, syslog, usage text and log messages, and the `log_level` of the configuration.
- Reading and decoding the configuration file: a reload starts from decoded entries; an unreadable file has none.
- Link lookups, address listings, hardware addresses, the clock and the outcome of sends: parameters.
- The neighbour discovery of the real kernel: neighbour states may change in any way between two steps. The neighbour
  table holds each address once, IPv4-mapped ones in their IPv4 form, and does not list proxy entries.
- Routes other than /128 host routes of the main table, and neighbour states with several bits set at once.
- Control messages, socket addresses, option meanings and the read loops: a reader is a packet queued with the record
  of its socket. The hop-limit check of the loops is not modelled.
- The memory model of goroutines, blocking on the full event channel, and reuse of descriptor numbers: handles are
  numbered by a counter and never come back.
- Real time: a timer is a pending item that may expire at any later step, or may already be queued when stopped.
- Aliasing of interface records: the class requires each record to be filed under its own name, as the code does.
- Process.Relayd.Reload: which faults the setups of one interface meet is fixed before the reload begins.
- Handlers.HandleICMPv6: the outcome of a send is not part of it; a send is an attempt on an open socket.
- MirrorRuns.RunAgrees: asks that no address is ever tracked on two interfaces, that every interface relays NDP and
  learns routes, and that the kernel refuses nothing, and leaves out reloads, index changes and own addresses; without
  the first, AddAgreesIff and RemoveAgreesIff say which single steps fail, and what a reload leaves behind is stated
  in Leftovers.
- MirrorRuns.TrackedIffAppeared: reloads are those of decoded entries with distinct names, as a JSON object has them.
- Tracking.CallsAlternate: over the operations that change the tracked set; the calls a reconcile, an address event or
  the clearing of an interface makes for own addresses, and those a reconcile repeats, are not counted.
- Leftovers.ReloadLeavesEntries: says nothing of hosts whose address is also resolved on another interface and not
  tracked there, or is an own or tracked address of an interface that moves; of the latter ConfigureForgets says that
  the route goes, but their proxy entries depend on the order in which entries are parsed.
- Leftovers.LeftoverRoutesIff: for the same hosts, where routes fitted the roles before.
- Leftovers.LeftoverProxiesIff: for the same hosts, where entries fitted the roles before.
- Wakeup.FlushIsHealed: asks that the kernel accepts the changes of the reconciles after the deletion and that they
  meet distinct indexes and no competing targets; ReconcileHealsIff says what happens otherwise.
- Dhcpv6.NestedRoundTrip: for positive interface indexes below 2^31.
