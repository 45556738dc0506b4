# Pona: a verified model of the NAT tunnels

Pona gives pods without public addresses a way out through SNAT gateways, over Foo-over-UDP tunnels.
This project models its two halves and the small part of the kernel beneath them, and proves what the
code keeps over every run.

- **Gateway side.** The pod watcher keeps a forward index (pod to addresses) and a reverse index (address
  to pods) and drives tunnel links and the routes of table 118 from them. A run is any sequence of pod
  reports, deletions and process restarts, with any kernel call refused.
- **Client side.** The daemon sets a pod's namespace up: rule, tunnel link, and the routes of table 117, which
  hold the egress's destinations beside throw routes for private and link-local ranges.
- **Egress controller.** Mutators of Deployment, Service and PodDisruptionBudget, the rendered pod template, and the
  subjects of the role binding.

## How it is built

| file | content |
|---|---|
| Sequences | lists without repetition |
| Addresses, NetipUtil | addresses, prefixes and masks on bytes; conversions to and from `net.IPNet` |
| FouNaming | tunnel link names |
| Kernel, Netlink | the kernel as a value with its calls as functions; the netlink socket as a class over it |
| Sentinel | one-time set-up guarded by a dummy link |
| Fou, FouController | tunnel controller: what its calls do, and the controller itself |
| NatGateway | routes of table 118, coupling of routes and links, and the gateway itself |
| PodWatcher | the handlers as functions, and the watcher class with its two maps |
| WatchLemmas, GatewayRuns, GatewayTheorems | loop lemmas, runs, and the gateway theorems |
| Orphans | tunnels that no index knows: their causes, their stay and their end |
| Locality, PartialFailures | calls meet only refusals of their own time; runs in which a deletion or a drop fails part way |
| ClientTable, NatClientController | table 117 before, during and after an update; the NAT client itself |
| Lookup | longest-prefix-match meaning of a table, and the policy rules in front of the tables |
| Ponad, Annotations | the daemon's `Add`; which pods each end selects |
| EgressController, EgressFields | objects kept by the egress controller; what their fields are |

Code that changes state is modelled by classes and methods with the source's loops and early returns.
Each such method is proved equal to a function of the old state, or against a property outright, and the
theorems are about those functions. `Netlink.trace` records every kernel state, so that claims about
intermediate states can be made.

**The kernel model.** Links are keyed by name and carry a fresh index and an up flag. Deleting a link
drops every route through it. Adding a route is an exclusive create on (table, destination, metric) and needs
an up link; IPv4 destinations must be masked, IPv6 ones are masked on the way in. Adding a rule that is there, or
a second FoU listener on a port, is an error; other settings may be made again. Call number `n` is
refused when `f(n)`, for an arbitrary `f`. A crash between two calls leaves the state that a refusal of the
next call leaves, up to the call counter. Listings come back in arbitrary order.

## What the code does not do

Each of these but the last is proved; "if and only if" marks the lemma with the exact condition under which the intended
property does hold.

- A report that drops an address deletes its tunnel without asking who else holds it:
  `RunningKeepsAvailable` (if and only if), `SharedDropCutsTunnel` (a run with nothing failing).
- The entry that a drop leaves in the reverse index keeps a tunnel alive that no pod lists: `DropLeaksTunnel` (a run
  with nothing failing), `DeletionReleasesExactly` (if and only if).
- A tunnel can also outlive every index entry. With nothing refused, a pod that is deleted after a restart leaves its
  tunnel and route behind (`RestartLeaksTunnel`); one refused call in a first report leaves the tunnel
  (`RefusedRouteLeaksTunnel`). Exactly: a deletion makes and ends no such orphan (`DeletionOrphans`), a successful report
  ends those its pod lists or listed and makes none (`ReportOrphans`), a restart makes every tunnel one
  (`RestartOrphans`). So over every run an orphan comes from a restart or a failed report (`OrphansHaveCause`), stays
  until a pod reports its address (`OrphansStay`), and never arises without restarts and refusals where fallback devices
  can be renamed (`TunnelsStayIndexed`).
- A deletion that fails after releasing an address leaves the pod stuck (`FailedDeletionSticks`): whatever happens to
  other pods, its deletion fails at every attempt, until the process restarts or a report of the pod succeeds
  (`StuckOverRuns`; `StuckStep`, if and only if). Without refusals a deletion succeeds if and only if the pod repeats no
  address and stands in the reverse entry of each: `DeletionSucceedsExactly`; any successful report without repetition
  brings that about: `ReportRepairsIndexes`. But the report does not bring back the tunnel that the failed deletion took
  (`ReportRestoresNoTunnel`, if and only if), so one refused call can leave a live pod cut off: `FailedDeletionCutsOff`;
  a report that fails while it drops addresses does the same: `FailedDropCutsOff`.
- A pod that lists an address twice cannot be deleted before it reports another list or the process restarts, and loses
  the tunnel trying if it holds the address alone:
  `RepeatedAddressNotDeleted`, `RepeatedAddressLosesTunnel`, `RepeatedAddressRun` (with nothing refused).
- A tracked pod that loses its annotation is ignored from then on, terminating or not, and stays tracked until it is
  no longer found or is selected again, or the process restarts: `UnselectedPodStaysTracked`.
- A start cut off between an exclusive step and the dummy link is completed by no later start: `InterruptedInitIsStuck`,
  `OneRefusalBlocks` (one refused call); `InitSucceedsExactly` and `RestartSucceedsExactly` (if and only if).
- While a fallback device and its new name both exist, and nothing is refused, the first attempt to add a tunnel fails, after it has added the
  link (`AddPeerSucceeds`, if and only if), and the second succeeds: `SecondAddPeerSucceeds`. A report fails
  accordingly (`RunningSucceeds`, if and only if), but no more often than it has addresses without a tunnel:
  `SecondReportSucceeds`, `QuietFailuresBounded`.
- `UpdateRoutes` reconciles exactly if and only if no unrequested prefix is on the link at two metrics:
  `ReconcilesExactly`.
- The throw routes are plain adds, so an update never succeeds twice without `Init` between (`SecondUpdateImpossible`) and a pod that names
  two egresses is never set up (`SetUpNamespace`). After a successful `Add` the throw routes can be added again if and
  only if both families are enabled (`ThrowsFreeAgain`), so a second `Add` succeeds exactly for a dual-stack pod:
  `AttachableAgain`, `AddTwice`. A new destination that is listed twice makes the update fail: `UpdateRoutes`.
- The gateway compares the pieces of an annotation with its namespace instead of its name:
  `EndsAgreeExactly`, `ListedPodsIgnored`.
- A failed set-up of the flow-based device is not retried: `FlowDeviceReady`.
- The client's `IsInitialized` never looks at IPv6 when IPv4 is on: `IsInitializedExactly` and `InitAnswersExactly` (if
  and only if), `HalfInitSaysInitialized` (a dual-stack `Init` cut off half way).
- The template's second container loop picks a container that is not named "egress":
  `ContainersWellNamedExactly`. A user volume called "modules" is duplicated: `VolumesUnique`.
- `docs/design.md` says that a CNI Del removes the pod's configuration; `Del` does nothing
  (internal/ponad/server.go:253-255), and the model follows the code.

## Model

| member | source | states |
|---|---|---|
| `NetipUtil.MaskRoundTrip` | pkg/util/netiputil/netiputil.go:25-35 | measuring a built mask gives back its length, for every mask width and length |
| `NetipUtil.MaskBits` | pkg/util/netiputil/netiputil.go:25-29 | bit `i` of the mask built for `n` ones is 1 exactly if `i` is below `n` |
| `NetipUtil.MaskLengthExactly` | pkg/util/netiputil/netiputil.go:31-36 | a mask measures as `n` if and only if it is `n` ones, then zeros |
| `NetipUtil.MaskedByMask` | pkg/util/netiputil/netiputil.go:25-29 | masking a prefix is the conjunction with its mask, bit by bit |
| `Addresses.ContainsByBits` | pkg/nat/client.go:272-287 | a prefix contains exactly the addresses of its width that agree with it in the first `bits` bits |
| `Addresses.MaskedByBits` | pkg/nat/client.go:272-287 | a masked prefix has the first `bits` bits of the prefix and zeros after |
| `Addresses.IsMaskedByBits` | pkg/nat/client.go:272-287 | a prefix is masked if and only if every bit past its length is zero |
| `Addresses.HostPrefixAlone` | pkg/nat/gateway.go:124-158 | the prefix of a host contains that host alone |
| `KernelModel.StoredDstByBits` | pkg/nat/client.go:272-287 | which destinations the kernel takes, by their bits: an IPv4 prefix with a bit past its length is refused |
| `NetipUtil.PrefixRoundTrip` | pkg/util/netiputil/netiputil.go:25-36 | converting a valid prefix to `net.IPNet` and back is the identity if and only if its address is not IPv4-mapped |
| `NetipUtil.MappedPrefixLost` | pkg/util/netiputil/netiputil.go:12-36 | an IPv4-mapped prefix comes back as IPv4, and as an invalid prefix when longer than 32 bits |
| `NetipUtil.AddrRoundTrip` | pkg/util/netiputil/netiputil.go:8-19 | an address survives the slice conversion if and only if it is not IPv4-mapped |
| `FouNaming.LinkNameInjective` | pkg/tunnel/fou/fou.go:20-36 | two addresses share a link name exactly if they are equal or both IPv6 with colliding digests; so IPv4 names are injective and never meet IPv6 names |
| `FouNaming.LinkNameDecodes` | pkg/tunnel/fou/fou.go:20-36 | a name reads back as "fou4_" and the address or "fou6_" and the digest, two hexadecimal digits a byte |
| `FouNaming.LinkNameFits` | pkg/tunnel/fou/fou.go:20-36 | every link name fits in 15 characters and starts like a FoU link |
| `FouNaming.V4NamesDistinct` | pkg/tunnel/fou/fou.go:28-29 | for IPv4 addresses the collision hypothesis of the gateway theorems always holds |
| `Sentinel.SentinelIsCrashSafe` | pkg/nat/gateway.go:58-108 | over every run of starts, each cut off anywhere, the dummy link is there only if every set-up step is done |
| `Sentinel.InitOnceOnly` | pkg/tunnel/fou/fou.go:83-148 | once the dummy link is there no later `Init` changes anything |
| `Sentinel.InitSucceedsExactly` | pkg/tunnel/fou/fou.go:83-148 | without refusals a start succeeds if and only if the dummy link is there or no exclusive step was done before |
| `Sentinel.InterruptedInitIsStuck` | pkg/nat/gateway.go:58-108 | from a state with an exclusive step done and no dummy link, no later start ever succeeds, whatever is refused |
| `Sentinel.RefusedDummyBlocks` | pkg/nat/gateway.go:101-108 | after all steps, refusing the dummy link alone reaches such a state |
| `Sentinel.OneRefusalBlocks` | pkg/nat/gateway.go:58-108 | a run with exactly one refused call that does so, on any host where no exclusive step was done |
| `Fou.NewFoUTunnelController` | pkg/tunnel/fou/fou.go:66-81 | accepted exactly if at least one address is given and each has its family; which error otherwise |
| `Fou.InitStepsMeaning` | pkg/tunnel/fou/fou.go:93-139 | every step is done if and only if, per configured family, the settings are there: rp_filter, forwarding, module, listener, checksum rule |
| `Fou.SetupDeviceEffect` | pkg/tunnel/fou/fou.go:340-377 | on success the flow-based device exists and is up; no other link appears or is lost, whatever is refused |
| `Fou.RenameDeviceEffect` | pkg/tunnel/fou/fou.go:381-392 | either nothing changes or the fallback device goes by its new name, which was free, as the same link; every other link is untouched; without refusals it fails if and only if both names are taken, and on success the fallback name is gone |
| `Fou.SetupFlowBasedEffect` | pkg/tunnel/fou/fou.go:299-337 | device up on success, other links only grow, the fallback device of the family stays or moves to its new name, the other family's stays, and when it succeeds without refusals |
| `Fou.NewPeerDevice` | pkg/tunnel/fou/fou.go:299-337 | a success that creates the link leaves "pona_ipip4" up for IPv4 and "pona_ipip6" for IPv6, and the other one as it was |
| `Fou.AddPeerEffect` | pkg/tunnel/fou/fou.go:171-262 | on success the returned link is the live link of that address; whatever is refused, links other than fallback devices only grow, by that link, the flow device and the fallback's new name, and the fallback device of the family stays or is the same link under that name; a family mismatch is reported exactly for unsupported families, touching nothing |
| `Fou.AddPeerSucceeds` | pkg/tunnel/fou/fou.go:171-262 | without refusals it succeeds if and only if the family is supported and the tunnel is there or the fallback device can be renamed |
| `Fou.SecondAddPeerSucceeds` | pkg/tunnel/fou/fou.go:189-219 | where the device cannot be renamed, the first call fails and leaves the link and the device up, the second succeeds |
| `Fou.DelPeerEffect` | pkg/tunnel/fou/fou.go:264-279 | success removes exactly that link and the routes through it; failure changes nothing |
| `Fou.DelPeerSparesOthers` | pkg/tunnel/fou/fou.go:264-279 | deleting an IPv4 peer never removes another address's link, whatever the digest does |
| `Fou.FlowDeviceReady` | pkg/tunnel/fou/fou.go:189-219 | after success the flow device is up if and only if the link was new or the device was up before |
| `FouController.FouTunnelController.Init` | pkg/tunnel/fou/fou.go:83-164 | refines the guarded set-up: same steps, same order, same early returns |
| `FouController.FouTunnelController.AddPeer` | pkg/tunnel/fou/fou.go:171-262 | refines the function that `AddPeerEffect` is about, renaming of the fallback device included |
| `FouController.FouTunnelController.DelPeer` | pkg/tunnel/fou/fou.go:264-279 | refines the function that `DelPeerEffect` is about |
| `FouController.FouTunnelController.SetupDevice` | pkg/tunnel/fou/fou.go:340-377 | refines the function that `SetupDeviceEffect` is about |
| `FouController.FouTunnelController.RenameDevice` | pkg/tunnel/fou/fou.go:381-392 | refines the function that `RenameDeviceEffect` is about: a failed lookup counts as success |
| `FouController.FouTunnelController.SetupFlowBased` | pkg/tunnel/fou/fou.go:299-337 | refines the function that `SetupFlowBasedEffect` is about |
| `FouController.FouTunnelController.IsInitialized` | pkg/tunnel/fou/fou.go:166-169 | true exactly if the lookup works and the dummy link is there; changes nothing |
| `NatGateway.GatewayStepsMeaning` | pkg/nat/gateway.go:50-99 | what "every step done" means per family: masquerading except the own address, and the rule of priority 2000 to table 118 |
| `NatGateway.AddClientEffect` | pkg/nat/gateway.go:110-158 | on a coupled table, success means the client's route through the given link, which is up; no other client's route changes; failure adds none |
| `NatGateway.AddClientSucceeds` | pkg/nat/gateway.go:110-158 | with nothing refused it succeeds on any live link |
| `NatGateway.FamilyCheckRedundant` | pkg/nat/gateway.go:110-122 | the safeguard family test never fires after a successful `AddPeer`, as its comment says |
| `NatGateway.OneRoutePerClient` | pkg/nat/gateway.go:129-157 | table 118 has at most one route per address |
| `NatGateway.CoupledRouteServesOne` | pkg/nat/gateway.go:124-158 | a route of table 118 matches one address and leaves at metric 0 by a link that is up |
| `NatGateway.DelPeerKeepsCoupled` | pkg/tunnel/fou/fou.go:264-279 | deleting a link removes exactly its client's route and keeps table 118 coupled |
| `NatGateway.ReaddedClientGetsNewLink` | pkg/nat/gateway.go:129-158 | deleting and adding an address ends with its only route through a link that did not exist before |
| `GatewayController.NewGateway` | pkg/nat/gateway.go:34-48 | accepted exactly if each address has its family; accepts whatever the tunnel controller accepts |
| `GatewayController.Gateway.Init` | pkg/nat/gateway.go:58-108 | refines the guarded set-up of the gateway |
| `GatewayController.Gateway.AddClient` | pkg/nat/gateway.go:110-158 | the scan over an arbitrarily ordered route list refines the function that `AddClientEffect` is about |
| `PodWatcherController.PodWatcher.Reconcile` | internal/controller/pod_watcher.go:69-116 | case by case: an API error is returned and nothing is touched; a pod that is gone, or selected and leaving, is deleted; one in the host network or not selected is left alone; a live selected one is reported with exactly its addresses in order, or fails without effect if one does not parse |
| `PodWatching.ParsedExactly` | internal/controller/pod_watcher.go:129-137 | the parsed list is all entries in order, and there is none exactly if an entry does not parse |
| `PodWatcherController.PodWatcher.HandlePodRunning` | internal/controller/pod_watcher.go:118-187 | maps and kernel after a report, failed or not, are the specified ones; a bad address changes nothing |
| `PodWatcherController.PodWatcher.AddNewPeers` | internal/controller/pod_watcher.go:139-157 | the adding loop refines its recursive specification, skips and early returns included |
| `PodWatcherController.PodWatcher.DelOldPeers` | internal/controller/pod_watcher.go:159-172 | the dropping loop refines its recursive specification |
| `PodWatcherController.PodWatcher.HandlePodDeletion` | internal/controller/pod_watcher.go:189-223 | maps and kernel after a deletion, failed or not, are the specified ones |
| `WatchLemmas.RunningTunnels` | internal/controller/pod_watcher.go:139-172 | a successful report gives an address a tunnel exactly if it is not dropped and had one or is new and supported; a failed one only moves that way; from any kernel |
| `WatchLemmas.RunningRoutes` | internal/controller/pod_watcher.go:139-172 | the same for routes on a coupled table, which stays coupled |
| `WatchLemmas.EnlistEffect` | internal/controller/pod_watcher.go:174-184 | the reverse index gains exactly the pod at its addresses |
| `WatchLemmas.ReleaseIndexes` | internal/controller/pod_watcher.go:194-218 | the deletion loop takes only this pod out of reverse entries, never another; after success out of all of them; no empty set appears |
| `WatchLemmas.ReleaseErrors` | internal/controller/pod_watcher.go:194-234 | on a distinct list known to the reverse index only the kernel can make it fail |
| `WatchLemmas.ReleaseTunnels` | internal/controller/pod_watcher.go:194-218 | no tunnel appears; an unlisted address, or one with another pod in its entry, keeps its tunnel whatever fails; on success every other listed address has lost it |
| `WatchLemmas.MoreThanOne` | internal/controller/pod_watcher.go:225-231 | the length test means that some other pod stands in the entry |
| `GatewayRuns.RoutesStayCoupled` | internal/controller/pod_watcher.go:118-223 | over every run each route of table 118 is one client's host route through that client's live, up link |
| `GatewayRuns.RunningIndexes` | internal/controller/pod_watcher.go:174-186 | success records exactly the report in both maps; failure changes neither |
| `GatewayRuns.RunningKeepsInverse` | internal/controller/pod_watcher.go:159-184 | a successful report keeps the reverse index the exact inverse if and only if it drops no address |
| `GatewayRuns.DeletionIndexes` | internal/controller/pod_watcher.go:189-223 | from a covered state deletion errs only on a refusal, always succeeds without one; success forgets exactly the pod; success and a failure that releases nothing keep cover and inverse |
| `GatewayRuns.ReverseIndexCovers` | internal/controller/pod_watcher.go:118-223 | over every run without repeated addresses and part-way failed deletions, drops included, the reverse index knows every tracked address and holds no empty set |
| `GatewayRuns.DeletionIsSafe` | internal/controller/pod_watcher.go:189-234 | after every run without repeated addresses and part-way failed deletions, a deletion never returns either index error and never takes the tunnel of an address another tracked pod lists, even if it fails part way itself |
| `GatewayRuns.IndexesStayInverse` | internal/controller/pod_watcher.go:118-223 | over every run without drops and repeated addresses the maps are exact inverses, whichever additions fail and whichever deletions are refused before they release anything |
| `GatewayRuns.DeletionStuck` | internal/controller/pod_watcher.go:194-198 | a first address out of step makes every deletion attempt fail without effect |
| `GatewayRuns.FailedDeletionSticks` | internal/controller/pod_watcher.go:194-218 | a failed deletion leaves the maps untouched or the pod's first address out of step |
| `GatewayRuns.StuckStep` | internal/controller/pod_watcher.go:118-223 | an event puts such a pod back in step if and only if it is a restart or a successful report of that pod |
| `GatewayRuns.StuckOverRuns` | internal/controller/pod_watcher.go:118-223 | over every run without these, whatever other pods do and whatever is refused, the pod's deletion fails and changes nothing |
| `GatewayRuns.DeletionSucceedsExactly` | internal/controller/pod_watcher.go:189-234 | without refusals, from any state: a deletion succeeds if and only if the pod lists no address twice and stands in the reverse entry of each |
| `GatewayRuns.ReportRepairsIndexes` | internal/controller/pod_watcher.go:174-234 | after a successful report, from any state, the next deletion succeeds if and only if the report repeated no address |
| `GatewayRuns.ReportRestoresNoTunnel` | internal/controller/pod_watcher.go:139-144 | an address listed before and again gets no tunnel if it had none; after success all reported addresses have tunnels if and only if those listed before had |
| `GatewayRuns.ReconcilesAreRuns` | internal/controller/pod_watcher.go:69-107 | any sequence of reconciles, with any answers of the API server, is a run of the events it amounts to |
| `GatewayRuns.ReconcileEntry` | internal/controller/pod_watcher.go:69-107 | one reconcile changes at most its own pod's entry, by forgetting it or by recording the answer's addresses |
| `GatewayRuns.ForgottenForCause` | internal/controller/pod_watcher.go:69-107 | over any sequence of reconciles a tracked pod stops being tracked only after an answer for it that it is gone, or selected and leaving |
| `GatewayRuns.EntryHasSource` | internal/controller/pod_watcher.go:69-107 | what is recorded for a pod was there before, or is exactly the addresses of some answer for it that is selected and live |
| `GatewayRuns.UnselectedPodStaysTracked` | internal/controller/pod_watcher.go:84-97 | a pod that is found but not selected keeps its entry over any sequence of reconciles, terminating or not |
| `GatewayRuns.RestartSucceedsExactly` | cmd/nat-gateway/main.go:182-198 | without refusals a restart succeeds if and only if each `Init` is done or none of its exclusive steps is |
| `GatewayRuns.RepeatedAddressNotDeleted` | internal/controller/pod_watcher.go:194-234 | a deletion of a pod that lists an address twice fails, from any state |
| `GatewayTheorems.RunningKeepsAvailable` | internal/controller/pod_watcher.go:139-184 | a successful report keeps every tracked address's tunnel if and only if no other tracked pod lists a supported address it drops |
| `GatewayTheorems.FailedReportKeepsAvailable` | internal/controller/pod_watcher.go:139-172 | a report that fails while adding, or at its first deletion, loses no tunnel |
| `GatewayTheorems.TunnelsStayAvailable` | internal/controller/pod_watcher.go:129-220 | from any kernel state, restarts included, every supported address of every tracked pod has its tunnel after every event, if reports repeat no address, dropped addresses were the pod's alone, and drops and deletions that fail have deleted nothing |
| `GatewayTheorems.ClientsStayConnected` | internal/controller/pod_watcher.go:129-220 | under the same terms, from a coupled table, the whole return path: a host route through the address's own live, up link |
| `GatewayTheorems.GatewayRefinesSpec` | internal/controller/pod_watcher.go:118-234 | over every run without refusals, drops, repeated addresses and restarts, from a kernel without tunnels and client routes whose fallback devices can be renamed, the forward index is the map of last reports, and tunnels and routes are exactly those of supported addresses it holds |
| `GatewayTheorems.MapsRefineSpec` | internal/controller/pod_watcher.go:118-234 | the map half, without refusals, drops and repeated addresses, with restarts and from any coupled kernel whose fallback devices can be renamed: the forward index is the map of last reports since the last restart, the reverse index its inverse |
| `GatewayTheorems.RunningSucceeds` | internal/controller/pod_watcher.go:118-187 | without refusals, from every coupled state, a report succeeds if and only if every address to set up has its tunnel or its fallback device can be renamed |
| `GatewayTheorems.FailuresStayBetween` | internal/controller/pod_watcher.go:139-172 | failed attempts leave the maps alone and lie between the start and a success |
| `GatewayTheorems.RetryConverges` | internal/controller/pod_watcher.go:139-184 | a success after any number of failed attempts reaches the maps, tunnels and routes of a success at the first attempt |
| `GatewayTheorems.QuietFailuresBounded` | internal/controller/pod_watcher.go:139-157 | without refusals no more attempts in a row fail than addresses of the report lack their tunnel |
| `GatewayTheorems.SecondReportSucceeds` | internal/controller/pod_watcher.go:139-157 | where the device cannot be renamed, a first report of an address fails and the second succeeds |
| `GatewayTheorems.SharedDropCutsTunnel` | internal/controller/pod_watcher.go:159-172 | a run without faults after which a pod has lost the tunnel of an address it still holds |
| `GatewayTheorems.DropLeaksTunnel` | internal/controller/pod_watcher.go:159-223 | a run without faults after which an address that no pod lists still has its tunnel |
| `GatewayTheorems.DeletionReleasesExactly` | internal/controller/pod_watcher.go:194-231 | a successful deletion leaves a listed address its tunnel exactly when another tracked pod lists it, if and only if no other pod stands in its entry without listing it |
| `Orphans.DeletionOrphans` | internal/controller/pod_watcher.go:189-223 | from any state and under any refusals, after a deletion, failed or not, an address has a tunnel and no reverse entry if and only if it did before |
| `Orphans.ReportOrphans` | internal/controller/pod_watcher.go:118-187 | after a successful report an address is such an orphan if and only if it was one and the pod neither lists nor listed it; a failed report makes orphans of addresses to set up only and ends none it does not drop |
| `Orphans.RestartOrphans` | cmd/nat-gateway/main.go:182-206 | after a restart, cut off or not, the orphans are exactly the tunnels |
| `Orphans.OrphansHaveCause` | internal/controller/pod_watcher.go:118-223 | over every run an orphan at the end was one at the start, or a report that was to set it up failed, or the process restarted while it had its tunnel |
| `Orphans.OrphansStay` | internal/controller/pod_watcher.go:118-223 | an orphan that no tracked pod lists stays one over every run, restarts included, in which no pod reports the address |
| `Orphans.TunnelsStayIndexed` | internal/controller/pod_watcher.go:118-223 | over every run without refusals and restarts, drops and failed deletions included, from a kernel without tunnels and client routes whose fallback devices can be renamed, there is no orphan |
| `Orphans.RestartLeaksTunnel` | internal/controller/pod_watcher.go:189-223 | a run with nothing refused and a restart, after which both maps are empty and tunnel and route are still there |
| `Orphans.RefusedRouteLeaksTunnel` | internal/controller/pod_watcher.go:139-157 | a run with one refused call, after which both maps are empty and the tunnel is still there |
| `GatewayTheorems.HandlersKeepSetUp` | internal/controller/pod_watcher.go:118-223 | no handler changes a setting, a rule or a dummy link, or makes a fallback device unrenamable, whatever is refused |
| `PartialFailures.PartWayFailure` | internal/controller/pod_watcher.go:194-218 | a refused lookup of the second of two addresses leaves the pod tracked with both, the first without entry and tunnel |
| `Locality.AddNewLocal` | internal/controller/pod_watcher.go:139-157 | the adding loop meets only refusals of its own time: the same refusals before its end give the same result |
| `PartialFailures.FailedDeletionCutsOff` | internal/controller/pod_watcher.go:118-223 | a run with one refused call that meets every term of `TunnelsStayAvailable` but clean deletions; all reports succeed, the maps are right, and a live pod's address has lost its tunnel |
| `PartialFailures.FailedDropCutsOff` | internal/controller/pod_watcher.go:139-184 | the same outcome by a report that fails while it drops addresses: the run meets every term but clean drops |
| `GatewayTheorems.RepeatedAddressLosesTunnel` | internal/controller/pod_watcher.go:194-218 | a repeated address loses its tunnel to a failed deletion while the pod stays tracked |
| `PartialFailures.RepeatedAddressRun` | internal/controller/pod_watcher.go:118-223 | a run with nothing refused that reports an address twice and deletes the pod: the pod stays tracked without its tunnel |
| `GatewayTheorems.SentinelsHoldOverRuns` | cmd/nat-gateway/main.go:179-195 | over whole gateway runs with restarts cut off anywhere, each dummy link vouches for its set-up |
| `ClientTable.ReconcilesExactly` | pkg/nat/client.go:174-213 | after success the link has exactly the requested prefixes, if and only if no unrequested prefix was on it twice |
| `ClientTable.SecondUpdateImpossible` | pkg/nat/client.go:196-202 | a second update of the table without `Init` cannot succeed |
| `ClientTable.CanUpdateExactly` | pkg/nat/client.go:174-208 | an update is possible if and only if the throw routes are not there and each requested prefix that the link lacks can be stored at a free place, no two at the same; so a new prefix listed twice makes it fail |
| `ClientTable.AddedRoutes` | pkg/nat/client.go:257-287 | what an update, finished or not, has added: table 117, metric 100 through the link or 500 as a throw of a special range |
| `ClientTable.SpecialStored` | pkg/nat/client.go:29-46 | the special ranges are valid, masked, and stored as they are |
| `NatClientController.NatClient.Clear` | pkg/nat/client.go:75-116 | success deletes exactly the family's rules of priority 1900 and routes of table 117, repeated rules included; failure deletes only such and needs a refusal |
| `NatClientController.NatClient.Init` | pkg/nat/client.go:118-140 | per enabled family exactly one rule of priority 1900, to table 117 and for any interface, and an empty table 117; no other rule, route or family touched, also on failure, which needs a refusal |
| `NatClientController.InitIdempotent` | pkg/nat/client.go:118-140 | a second `Init` changes no rule and no route |
| `NatClientController.InitializedAfterInit` | pkg/nat/client.go:118-166 | after `Init` the one-rule test holds if and only if no rule of another priority names table 117 |
| `NatClientController.NatClient.IsInitialized` | pkg/nat/client.go:142-166 | true exactly if one rule of the first enabled family names table 117 |
| `NatClientController.IsInitializedExactly` | pkg/nat/client.go:142-166 | the answer means that every enabled family is set up if and only if not both are enabled or IPv6 is set up whenever IPv4 is |
| `NatClientController.InitAnswersExactly` | pkg/nat/client.go:118-166 | after a complete dual-stack `Init` the answer is right if and only if no foreign rule names the table in IPv6 alone |
| `NatClientController.HalfInitSaysInitialized` | pkg/nat/client.go:118-166 | after the IPv4 half of a dual-stack `Init`, on a host where no rule named the table before, the answer is wrong |
| `NatClientController.NatClient.UpdateRoutes` | pkg/nat/client.go:168-215 | without refusals it succeeds exactly if the link is live, the throw routes are not there yet, and the prefixes the link lacks can be stored at distinct free places (so a repeated new prefix always fails); success ends in the specified table; every intermediate state, and every failure, keeps old routes that are requested, adds nothing else, leaves other links alone, removes nothing before all requested prefixes are in, and adds none of them before all throw routes are in |
| `NatClientController.NatClient.CollectRoutes` | pkg/nat/client.go:217-247 | one route per prefix on the link, every prefix on the link, nothing changed |
| `NatClientController.NatClient.CollectRoute1` | pkg/nat/client.go:230-247 | the same for one family, keys converted back from `net.IPNet` |
| `NatClientController.NatClient.Diff` | pkg/nat/client.go:174-188 | what to add, in order and with repetitions, and what to delete, each once, for any map order |
| `NatClientController.NatClient.AddThrows` | pkg/nat/client.go:196-202 | success adds exactly the throw routes, none of which was there, and without refusals comes exactly then; every intermediate state adds only such |
| `NatClientController.NatClient.AddRoutes` | pkg/nat/client.go:204-208 | success adds exactly the requested routes, none of which was there, and without refusals comes exactly if they are addable and the link is up |
| `NatClientController.NatClient.AddAll` | pkg/nat/client.go:257-287 | the adding loop of both, one exclusive create after the other; keys stay unique |
| `NatClientController.NatClient.DelRoutes` | pkg/nat/client.go:209-213 | success deletes exactly the given routes; failure deletes only such; without refusals distinct present routes are all deleted |
| `Lookup.LookupFollowsLengths` | pkg/nat/client.go:15-46 | for every address and prefix list: the tunnel is taken if and only if a containing destination is at least as long as every containing special range; thrown if and only if a special range is strictly longer; equal prefixes go to the tunnel |
| `Lookup.UpdateNeverLeaks` | pkg/nat/client.go:196-213 | in no state that a first update passes through, finished or not, does an address that is to be thrown take the link: the throw routes come first |
| `Lookup.FindIsUnique` | pkg/nat/client.go:257-287 | on a table with one route per destination and metric, which every step of `Add` keeps, the lookup has exactly one answer |
| `Lookup.SpecialIsPrivate` | pkg/nat/client.go:29-46 | the special ranges are exactly the private and link-local addresses of RFC 1918, 3927, 4193 and 4291 |
| `Lookup.DefaultRouteSparesPrivate` | pkg/nat/client.go:196-208 | a default-route egress takes every public address and throws every private or link-local one |
| `Ponad.CollectDestinationsForEgress` | internal/ponad/server.go:202-251 | succeeds exactly if egress, service and all entries parse; gives the service address and the entries of its family, in order |
| `Ponad.OfFamilyMembers` | internal/ponad/server.go:224-246 | an entry is kept exactly if it has the service address's family |
| `Ponad.OfFamilyAppend` | internal/ponad/server.go:224-246 | kept entries stand in the order of the list, with repetitions |
| `Ponad.Add` | internal/ponad/server.go:114-178 | a pod naming no egress is let through untouched; otherwise success means that its annotations name exactly one, which the namespace then serves, that each enabled family has exactly one rule of priority 1900, to table 117, all other rules being as before, and that listener, forwarding and checksum settings of the port are made if an old dummy link did not lie; without refusals success comes exactly if also all own addresses parse and there is one, `Init` can get through, and the egress resolves, has an enabled family and a reachable service, addable prefixes and free throw routes |
| `Ponad.SetUpNamespace` | internal/ponad/server.go:142-175 | the part inside the namespace, for any list of egresses: success only for at most one, with the rules and settings of `Add`; the exact condition without refusals |
| `Ponad.Prepare` | internal/ponad/server.go:143-156 | both initialisations: the rules and settings of `Add`, no route of an enabled family left in table 117, services as reachable as before; without refusals success exactly if `Init` can get through |
| `Ponad.ServeAll` | internal/ponad/server.go:158-172 | the loop over egresses: success only for at most one, which is then served; the exact condition without refusals; rules and settings untouched |
| `Ponad.LocalAddresses` | internal/ponad/server.go:122-133 | the first address of each family, everything else as configured; fails exactly if one does not parse; a controller can be built from it exactly if there is any |
| `Ponad.ThrowsFreeAgain` | internal/ponad/server.go:150-170 | after a successful `Add`, `Init` frees the places of the throw routes if and only if both families are enabled |
| `Ponad.AttachableAgain` | internal/ponad/server.go:142-171 | the same egress can be attached a second time if and only if the pod is dual-stack |
| `Ponad.AddTwice` | internal/ponad/server.go:89-178 | of two `Add`s for one pod without refusals, after a success of the first the second succeeds if and only if the pod has addresses of both families |
| `Ponad.ServeOne` | internal/ponad/server.go:158-171 | one round of the loop: tunnel to the service address, then the update of table 117 through it |
| `Ponad.CleanUpdate` | internal/ponad/server.go:154-170 | on a cleared table an update is possible exactly if all prefixes are addable |
| `Ponad.ServedRoutes` | internal/ponad/server.go:158-171 | every tunnel route of an enabled family leaves by the tunnel to the service address and has its family; its prefixes are exactly the entries of that family |
| `Ponad.ServedLookup` | internal/ponad/server.go:158-171 | where every address of that family goes, from the listed destinations alone |
| `Ponad.ServedPackets` | internal/ponad/server.go:142-175 | through the policy rules: the rule of priority 1900 settles exactly the addresses that belong in the tunnel; a packet to one leaves by the tunnel if and only if no rule of a lower priority settles it first; later rules get only the others |
| `Annotations.SplitJoin` | internal/ponad/server.go:195-197 | splitting is undone by joining and no piece holds a comma |
| `Annotations.HasEgressAnnotation` | internal/controller/pod_watcher.go:236-258 | the loop over annotations in any order decides the gateway's selection |
| `Annotations.ShouldHandle` | internal/controller/pod_watcher.go:109-116 | selection, except for host-network pods |
| `Annotations.ListEgress` | internal/ponad/server.go:180-200 | each egress is listed exactly as often as its name is a piece of its namespace's annotation, for any map order |
| `Annotations.NoEgressExactly` | internal/ponad/server.go:118-120 | the list is empty if and only if the pod is in the host network or no annotation has the prefix |
| `Annotations.OneEgressExactly` | internal/ponad/server.go:187-198 | the list is one egress if and only if one annotation has the prefix and its value is that name, without comma |
| `Annotations.EndsAgreeExactly` | internal/controller/pod_watcher.go:246-255 | the exact annotation values for which gateway and daemon agree about an egress |
| `Annotations.EndsAgreeOnPlainValues` | internal/controller/pod_watcher.go:246-255 | they agree if the egress is named like its namespace or the value is one other comma-free name |
| `Annotations.ListedPodsIgnored` | internal/controller/pod_watcher.go:251-255 | egresses listed in one value are listed by the daemon and ignored by their gateways |
| `EgressController.GetNamespaces` | internal/controller/egress_controller.go:238-249 | strictly sorted, exactly the namespaces of the list |
| `EgressController.SortedUnique` | internal/controller/egress_controller.go:243-248 | such a list is determined by its members |
| `EgressController.LessExactly` | internal/controller/egress_controller.go:243-248 | the order is lexicographic: the first difference decides, and a string comes after its beginnings |
| `EgressController.BindingSubjects` | internal/controller/egress_controller.go:216-225 | one service-account subject per namespace, in order |
| `EgressController.SubjectsDetermined` | internal/controller/egress_controller.go:212-229 | two bindings are equal if and only if the sets of namespaces are |
| `EgressController.ReconcileContainers` | internal/controller/egress_controller.go:448-494 | the two selection loops as written, against their specification |
| `EgressController.ContainersWellNamedExactly` | internal/controller/egress_controller.go:448-470 | one main container and no unnamed one if and only if the user lists none or a sole "egress" |
| `EgressController.VolumesUnique` | internal/controller/egress_controller.go:554-605 | volume names stay unique if and only if they were and "modules" is not among them |
| `EgressController.ChangeIdempotent` | internal/controller/egress_controller.go:251-404 | any change made to the store twice in a row equals the change made once, from every store, newly created objects included |
| `EgressController.ReconcileConverges` | internal/controller/egress_controller.go:123-135 | after any sequence of partial reconciles of one spec a complete one leaves what a single complete one leaves, and a second changes nothing |
| `EgressFields.ReconciledFields` | internal/controller/egress_controller.go:251-404 | a complete reconcile from every store whose objects are not being deleted: replicas, strategy, ClusterIP, port, affinity, budget, labels, annotations, service account, volumes and containers are those of the spec and the environment where these set them, and as stored otherwise; a new object gets its owner |
| `EgressFields.TemplateFields` | internal/controller/egress_controller.go:425-531 | the pod template of a spec: labels, annotations, service account, volumes, and containers as below |
| `EgressFields.RenderedMeaning` | internal/controller/egress_controller.go:448-494 | every user container stays as it is but one, the last not called "egress" if there is one, which gets the name, the default image if it has none, the namespace, name and addresses in its environment, and the two mounts |
| `EgressFields.DeletingUntouched` | internal/controller/egress_controller.go:260-262 | an object that is being deleted is left as it is, and no budget is made without one in the spec |
| `EgressFields.StoreFollowsSpecs` | internal/controller/egress_controller.go:251-404 | over every history of spec edits, partial reconciles and deletions, each stored object has the fields of the spec last applied to it |
| `EgressController.StoreStaysLabelled` | internal/controller/egress_controller.go:265-290 | over every sequence of edits and deletions the stored selectors and template labels are the egress's |
| `EgressController.SelectorsMatchOwnPodsOnly` | internal/controller/egress_controller.go:317-404 | over all such sequences of two egresses, every selector matches its own pods and none of another name |

## Left out

- gRPC, the CNI command, installer, process start, flags, logging, metrics and health checks: no logic to prove.
- `Add`: checks of the CNI arguments, fetching the pod and decoding the previous CNI result are left out, the pod's annotations and addresses are inputs; each is a single branch.
- SHA-1: the four digest bytes are a parameter. Theorems about several addresses assume no two IPv6 addresses of the run collide; none is assumed for IPv4.
- IPv4-mapped IPv6 addresses of pods and routes: excluded where stated (`Universe`, `TableWf`), since netlink would file their routes under IPv4.
- IPv6 zones in `netip.Addr`, and the nil destination that older netlink listings use for default routes.
- Route protocol numbers, type of service and link encapsulation parameters: nothing in the code branches on them.
- The kernel making fallback devices by itself when a module is loaded, and the link type of IPv6 tunnels: kernel behaviour outside the repository. Fallback devices that are there are renamed as in the source.
- Strings of addresses and prefixes: parsing is an input, and may fail entry by entry.
- Kubernetes client, cache, defaulting, patches and owner references: objects are plain values and ownership a flag.
- Ports, probes, resource requests and security context of the egress container; volumes and mounts are modelled by name.
- EgressController.ChangeIdempotent: models the in-place mutators as functions from the old object to the new one, so aliasing between objects is not captured.
- GatewayTheorems.TunnelsStayAvailable: assumes that failed deletions have released nothing (`FailedDeletionCutsOff` shows that this is needed), that reports list no address twice (`RepeatedAddressLosesTunnel`), that a dropped address was the pod's alone (`SharedDropCutsTunnel`), and that a report failing while it drops has deleted nothing (`FailedDropCutsOff`).
- `updateStatus`, service account and cluster role creation: single-branch facts.
