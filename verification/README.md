# Verification of the overlay operator

A Dafny model of the operator's address management and of the programs that read its results.

* `Addresses`, `PickIP`: IPv4 addresses as bytes, their text, CIDR prefixes, the ripple-carry increment and the scan for the first free address.
* `Api`, `Allocations`, `Ipam`: the API objects, the three lists of a network status, and the edits `allocateIP` and `deallocateIP`, once as functions and once as methods on an object in memory.
* `Validating`: the admission webhook.
* `Cluster`: the whole cluster as a state machine. An API server accepts a write only against the current version of an object (Kubernetes API Conventions, section "Concurrency Control and Consistency"). The operator reads through two caches that lag behind by any amount. Pod workers run in micro-steps, and other workers, the network controller and users act in between. Every request can get lost, and so can its reply.
* `Invariant`, `Steps`, `Preservation`: an inductive invariant of that machine. `Runs`: what it means for every run. `Protection`: what a pass of the network controller makes of a network, and that protection and release are always possible. `Deletion`: exactly which networks can be lost, with a run that loses one in `Race`. `Progress`: a pass that is left alone succeeds.
* `Reconciler`, `NetworkReconciler`: the two reconcile loops as they are written, with the rest of the cluster moving before every API call. What the code itself sends moves the store, and that move is proved to be the step of the machine.
* `Names`, `Tunnels`, `Kernel`, `Links`, `Routes`, `RouteRuns`, `Sidecar`, `SidecarRoutes`: the sidecar, from the status it read to links and routes, over a kernel whose calls may fail and which refuses a route that a link already has.
* `Resolver`: the DNS index and its answers.

`dafny verify dfyconfig.toml` checks everything.

## What the machine assumes

`Cluster.Enabled` states the assumptions: at most one worker per pod; caches that never go back; pods that carry the inject label are created with the IPAM finalizer (webhooks/pod.go:70) and the label is not added to a pod without it; nobody but the two controllers touches the two finalizers. A worker may be abandoned at any micro-step. All objects are those of one namespace.

## Where the code is not what one would expect

* A network that holds allocations can be removed with them if and only if it does not have its finalizer, whether it is live or deleting (`Deletion.LostExactly`). Before the network controller has added it, pods can join and a deletion takes the network away (`Race.UnprotectedDeletionLosesAllocations` is such a run).
* `netEqual` compares an address with itself (tunneler/network_controller.go:482), so routes are told apart by gateway and mask size only. After any number of successful reconciles a wanted destination has its route exactly if it had it at first or no other route passed for it then (`Routes.ReachedForever`). Two new prefixes of the same size behind the same router both get theirs (`Routes.SameClassFate`), but once one has its route and the other has none, the other never gets one (`Routes.SecondPrefixUnreached`).
* The list of wanted routes grows with every link (tunneler/network_controller.go:361), so from the second link on every missing route of a routable prefix is added twice, and the kernel refuses the second time. Without a fault a run succeeds exactly if every target link is there and misses no route that the list has twice, where the list has one copy of the routable routes for the link that comes first and two for the others (`RouteRuns.ReconcileRoutes`). So a member whose initial list is clean always succeeds if it has one link or no link needs a route (`RouteRuns.EveryOrderPasses`), succeeds for some order if at most one link needs one (`RouteRuns.SomeOrderPasses`), and never if two do. Every failure without a fault leaves fewer routes missing, so retries end (`RouteRuns.RetriesEnd`).
* Existing target links are kept as they are (tunneler/network_controller.go:215). After a successful pass a target link, apart from its routes, is as wanted exactly if it is new or was so before (`Sidecar.WantedExactly`). One with an outdated endpoint stays so through any passes that want it, and so does one that a failed set-up has left down or without an address: every later pass counts it as there and succeeds without bringing it up (`Sidecar.StaleForever`, `Links.SetupTunnelIface`).
* The comment at controllers/pod_controller.go:268 says that only a changed network is updated; the code always sends the update.
* Router entries keep the `ExtraNetworks` they were created with, so they agree with their allocation on pod name, pod address and overlay address only.
* Network ids are turned into letters by `%c`. An id shares its letter with another one exactly if its value is no rune (a surrogate, above 0x10FFFF, or negative after the wrap in 32 bits) or is the replacement character itself; all of these share one letter (`Names.LettersCoincide`, `Names.SharesLetter`). The first such id is 55231. `Names.NetworksCoincide` says what this means for tunnel names.

## Model

| member | source | states |
|---|---|---|
| Addresses.ParseText | controllers/iputil/pickip.go:32 | a text parses to an address exactly if it is the text printed for it, which makes the string-keyed map of taken addresses exact |
| Addresses.CidrRoundTrip | controllers/iputil/pickip.go:16 | every IPv4 prefix has a text that parses back to it, host bits included |
| Addresses.CidrExactly | controllers/iputil/pickip.go:16 | a text parses as a prefix exactly if it is the text of an address, a slash, and up to 32 in decimal digits |
| Addresses.DottedForm | controllers/iputil/pickip.go:32 | the text of an address is its four bytes in decimal with dots between them |
| Addresses.InNetIsMaskComparison | controllers/iputil/pickip.go:31 | the interval of a prefix is exactly the set of addresses that agree with it outside the host bits |
| PickIP.Inc | controllers/iputil/pickip.go:41-48 | the loop in place adds one modulo 256^length, big-endian |
| PickIP.IncrementIsAddition | controllers/iputil/pickip.go:41-48 | zeroing the trailing 255s and raising the byte before them is that addition, for any length |
| PickIP.FirstFreeHost | controllers/iputil/pickip.go:15-38 | the method terminates for every prefix; a requested address is returned itself unless it is taken, without a request the least free one is, and each error has its case |
| PickIP.PickHostExactly | controllers/iputil/pickip.go:15-38 | the same law for the function that specifies it |
| PickIP.ScanBytes | controllers/iputil/pickip.go:27-37 | the byte loop on the 16-byte form, including ranges that end at 255.255.255.255, finds what the scan over numbers finds |
| PickIP.FirstFreeHostExact | controllers/iputil/pickip.go:27-37 | without a request: the least address above the written one that is in the prefix and not taken; exhaustion exactly if there is none |
| PickIP.ScanSkips | controllers/iputil/pickip.go:31-34 | the scan skips at most as many addresses as are taken |
| PickIP.PoolNotExhausted | controllers/iputil/pickip.go:31-37 | fewer taken addresses than lie above the written one: the scan succeeds |
| PickIP.PickedInNet | controllers/iputil/pickip.go:21-35 | an address handed out is in the prefix (a requested one if it was) and was not taken |
| PickIP.Capacity | controllers/iputil/pickip.go:31 | distinct addresses of a prefix number at most its size |
| Validating.HandleExact | webhooks/validating.go:30-59 | a create is accepted exactly if its spec is valid, an update exactly if it keeps pool and port and its routable prefixes parse, whatever the stored spec is |
| Validating.DeniedExactly | webhooks/validating.go:30-57 | every denial names the first check that fails, and of the routable prefixes the first that does not parse |
| Validating.UpdateKeepsValidity | webhooks/validating.go:38-49 | an accepted update is valid exactly if the old pool and port were |
| Validating.AcceptedHistory | webhooks/validating.go:30-49 | along any history of accepted writes the specs stay valid and the pool is that of the creation |
| Ipam.NetworkObject.AllocateIP | controllers/pod_controller.go:167-266 | the edit in place gives the status of the specification function, or fails and changes nothing |
| Ipam.NetworkObject.PickNewIP | controllers/pod_controller.go:185-224 | the choice of a new address in the order of the source: taken map, request checks, scan; what it has to be says NewIPExactly |
| Ipam.RequestIsFirst | controllers/pod_controller.go:191-201 | the request is that of the first part of the annotation for the network |
| Ipam.NewIPExactly | controllers/pod_controller.go:185-224 | a requested address is granted exactly if it is in the pool and free, refused as outside or as taken otherwise; without a request the least free address is granted |
| Ipam.AllocateExactly | controllers/pod_controller.go:167-239 | the pod's entry or the reason of the refusal, in every case: no pod address, an entry kept but for its extra networks, a deleting network, the right new address |
| Api.ItemsForExactly | controllers/pod_controller.go:119-123 | the items of a network are those of its parts of the annotation, in their order |
| Ipam.NetworkObject.RecordRouter | controllers/pod_controller.go:241-266 | the router part of the edit, for every order of the map |
| Ipam.NetworkObject.RemoveFromOtherRouters | controllers/pod_controller.go:249-255 | the loop over the map, in any order, prunes exactly the routes not wanted |
| Ipam.NetworkObject.DeallocateIP | controllers/pod_controller.go:280-294 | the pod leaves all three collections, in place |
| Ipam.NewIPIsFresh | controllers/pod_controller.go:191-224 | a new address is in the pool and nobody's in this network, requested or not |
| Ipam.NewIPWithRoom | controllers/pod_controller.go:186-221 | a pod without a request gets an address when there are fewer allocations than addresses above the written one |
| Ipam.AllocateEffect | controllers/pod_controller.go:226-266 | the pod is allocated, a router iff asked, under optional route k iff k is among its extra routers; other pods keep entries and order |
| Ipam.DeallocateEffect | controllers/pod_controller.go:283-294 | the pod is in no collection; other pods keep entries and order |
| Ipam.OthersUntouched | controllers/pod_controller.go:283-294 | an edit for one pod leaves every other pod's entry in each collection |
| Ipam.AllocateKeepsSound | controllers/pod_controller.go:173-266 | distinct pods, distinct addresses in the pool and agreeing router lists survive allocateIP |
| Ipam.DeallocateKeepsSound | controllers/pod_controller.go:283-294 | the same for deallocateIP |
| Ipam.AllocateIdempotent | controllers/pod_controller.go:167-266 | repeating allocateIP on its own result changes nothing |
| Ipam.DeallocateUndoesAllocate | controllers/pod_controller.go:280-294 | for a new pod, deallocateIP restores both lists exactly and optional routers up to empty keys, and every pod is offered the same address again |
| Steps.WriteBackFate | controllers/pod_controller.go:268-276 | a status write computed from a stale list takes effect only if the object is still the listed one |
| Steps.WriteBackFails | controllers/pod_controller.go:125-135 | processing a network is an error exactly if the edit is refused, the object has changed, or the request or its reply is lost; a network that is gone is none |
| Steps.NetworkPassFate | controllers/overlaynetwork_controller.go:63-109 | a pass over a stale snapshot keeps the status and the pool, and releases a deleting network only when it is empty now |
| Steps.FinishFate | controllers/pod_controller.go:139-147 | a finalizer is dropped only from a pod that is unchanged since it was read and is deleting, after a pass without errors |
| Steps.DropFails | controllers/pod_controller.go:139-147 | dropping the finalizer fails exactly if the pod is gone or has changed, or the request or its reply is lost |
| Preservation.EventKeepsInv | controllers/pod_controller.go:63-158 | every micro-step, user action and controller pass keeps the invariant |
| Preservation.WhoIsAllocated | controllers/pod_controller.go:167-238 | a new allocation is always the doing of the pod's own worker, for a network the pod wants |
| Preservation.DroppedIsNowhere | controllers/pod_controller.go:100-147 | when a finalizer is about to be dropped its pod is allocated nowhere |
| Runs.RunInv | controllers/pod_controller.go:63-158 | the invariant holds in every state of every run |
| Runs.AllocationsAreSafe | controllers/pod_controller.go:173-238 | in every reached store: distinct pods, distinct addresses, all in the pool of the network |
| Runs.PoolNeverChanges | webhooks/validating.go:43-48 | between any two places of a run a network object has the same pool and port |
| Runs.NeverOverfull | controllers/pod_controller.go:213-233 | a network of prefix length n never holds more than 2^(32-n) allocations |
| Runs.RoutersAgree | controllers/pod_controller.go:241-266 | every router and optional router is the only entry of its pod there and has the addresses of its one allocation |
| Runs.NoDanglingEntries | controllers/pod_controller.go:100-147 | whoever is in any of the three collections is a stored pod with the finalizer |
| Runs.FinalizerDroppedLast | controllers/pod_controller.go:139-147 | a finalizer is lost only at the end of the pod's own pass, when no network mentions the pod |
| Runs.StepTouchesOnePod | controllers/pod_controller.go:283-294 | along a run, each step keeps the entries and the order of all pods but at most one |
| Runs.AddressesAreSticky | controllers/pod_controller.go:234-238 | while a pod stays allocated its pod address and overlay address never change |
| Runs.NewAllocation | controllers/pod_controller.go:167-238 | a pod gets into a network only by its own worker, when it asks for it, with the pod address and the annotation that the worker has read and with the right overlay address |
| Runs.DeletionIsSafe | controllers/overlaynetwork_controller.go:90-110 | once a protected network is deleting its pods only become fewer, and it disappears only from a store where it is empty |
| Runs.ReconcileOutcome | controllers/pod_controller.go:79-158 | a pass that does not requeue leaves the pod in the networks its annotations name, router and optional router exactly as they say, with its extra networks in their order; a deleting pod is in none and has lost the finalizer |
| Protection.NetworkPassExactly | controllers/overlaynetwork_controller.go:63-109 | a pass has its effect exactly if its request arrives and it has seen the stored version; then a live network has the finalizer, a deleting empty one has lost it and is gone without another, and nothing else has changed |
| Protection.ProtectionPossible | controllers/overlaynetwork_controller.go:67-76 | from every reached state one step can protect a live network |
| Protection.ReleasePossible | controllers/overlaynetwork_controller.go:90-110 | from every reached state one step can remove a deleting, empty network that only this finalizer holds |
| Deletion.LostExactly | controllers/overlaynetwork_controller.go:63-110 | in any reached state a network with allocations can be lost by some continuation if and only if it does not have the finalizer |
| Deletion.ProtectedNeverLost | controllers/overlaynetwork_controller.go:90-110 | once a network has its finalizer, live or deleting, it only disappears from a store where it is empty |
| Deletion.UnprotectedCanBeLost | controllers/overlaynetwork_controller.go:63-76 | without the finalizer a continuation of one or two writes loses it |
| Race.UnprotectedDeletionLosesAllocations | controllers/overlaynetwork_controller.go:67-76 | a run, for any pool with room, in which a network without the finalizer vanishes with an allocation |
| Progress.UndisturbedPassSucceeds | controllers/pod_controller.go:63-158 | with current caches, no faults, no interference and room in every wanted network a pass does not requeue, and leaves the pod where it should be |
| Progress.RoomSuffices | controllers/pod_controller.go:167-238 | the room that needs: an address of the pod, and an allocation already, a free requested address, or more addresses than allocations |
| Progress.PassCanSucceed | controllers/pod_controller.go:63-158 | from every such state the run can go on with such a pass |
| Reconciler.Reconcile | controllers/pod_controller.go:63-158 | if the cache shows a labelled pod, the loop with arbitrary interference before each call is a run of the machine that ends with the return of that pod's worker, requeues exactly when the machine does, and otherwise reaches the wanted state; else it does nothing |
| Reconciler.EndPass | controllers/pod_controller.go:139-157 | the finalizer goes only after a pass without errors, a failed update or a network not processed is a reason to requeue |
| Reconciler.ReconcileNetwork | controllers/pod_controller.go:108-137 | the loop body is one micro-step: edit, status update, missing networks counted as done |
| Reconciler.ApiServer.SendStatus | controllers/pod_controller.go:268-276 | the store takes the object the code sends, or not, and answers, as it decides at that moment; this is the micro-step of the machine, and only conflicts and failures are errors |
| Reconciler.ApiServer.SendFinalizer | controllers/pod_controller.go:140-145 | the store takes the pod as sent, without its finalizer, or not; this ends the pass, and its failure is a reason to requeue |
| Reconciler.ApiServer.SendNetwork | controllers/overlaynetwork_controller.go:69-75 | the store takes the network as sent, or not; allowed only for the object the machine's controller sends |
| Reconciler.OthersKeepWorkerLong | controllers/pod_controller.go:108-137 | whatever others do, a running worker and the snapshots it holds stay as they are |
| NetworkReconciler.Reconcile | controllers/overlaynetwork_controller.go:53-80 | a network missing in the cache at the read is left alone; for any other, read, edit and write with interference in between are one pass of the machine, and the error is that of the reply unless it is that the network is gone; without an error a live network seen without the finalizer has it, a deleting empty one seen with it has it no more, or the network is gone |
| NetworkReconciler.HandleDeletion | controllers/overlaynetwork_controller.go:90-110 | the finalizer goes exactly from a protected network without allocations |
| Names.FnvVectors | tunneler/network_controller.go:166-168 | known values of FNV-1 in 64 bits |
| Names.Encode58Exactly | tunneler/network_controller.go:168 | the text holds the digits of the hash in base 58, the most significant first, in the order of the Flickr alphabet |
| Names.Encode58Injective | tunneler/network_controller.go:168 | the base-58 text determines the hash |
| Names.Encode58Length | tunneler/network_controller.go:168 | at most k digits exactly for numbers below 58^k |
| Names.TunnelNameExactly | tunneler/network_controller.go:164-170 | a name is o, the letter, an underscore and the hash in base 58 |
| Names.TunnelNamesCoincide | tunneler/network_controller.go:164-170 | two names coincide exactly if the letters and the 64-bit hashes do |
| Names.LettersCoincide | tunneler/network_controller.go:161 | in 32 bits two ids share a letter exactly if they are equal or both have no rune of their own |
| Names.SharesLetter | tunneler/network_controller.go:161 | an id has to share its letter exactly if it has no rune of its own; the first is 55231 |
| Names.NetworksCoincide | tunneler/network_controller.go:153-170 | over any sequence of calls, tunnel names of two networks coincide exactly if the hashes do and the networks are the same or both ids have no rune |
| Names.PrefixSelects | tunneler/network_controller.go:200-211 | the prefix test picks exactly the links of networks with that letter |
| Names.NamesFit | tunneler/network_controller.go:164-170 | names of the first 26 networks have at most 14 characters |
| Names.NetworkIds.GetNetworkId | tunneler/network_controller.go:153-162 | ids are handed out in order of first use, with 32-bit wrap-around, and never change |
| Names.IdsStableAndInjective | tunneler/network_controller.go:153-162 | over any sequence of calls ids are stable, and injective up to 2^32 names |
| Tunnels.LinkedExactly | tunneler/network_controller.go:81-110 | one pod wants a link to another exactly if both are members and one is a router, with their allocated addresses |
| Tunnels.TargetsExactly | tunneler/network_controller.go:81-110 | the names of the target links are the tunnels to all other members for a router and to all routers for a member, whatever the hashes |
| Tunnels.TunnelsMirror | tunneler/network_controller.go:86-109 | two sidecars on one status want the same tunnel with swapped ends, inside and outside, whatever ids they use |
| Tunnels.ReachedTunnelsMirror | tunneler/network_controller.go:81-110 | the same for the status of any network in any store of a run |
| Tunnels.TargetsPrefixed | tunneler/network_controller.go:164-170 | every target link has the prefix of its network |
| Links.SetupTunnelIface | tunneler/network_controller.go:244-300 | it succeeds exactly if no call fails, the link is new and the pool parses; then the link is configured as wanted, with ports and TTL; on failure at most that link has changed, and what is left of it may be down or without its address |
| Links.ReconcileInterfaces | tunneler/network_controller.go:193-234 | success leaves exactly the target names under the prefix; target links and foreign links are never touched, even on failure; a second run changes nothing; it fails exactly if a kernel call does, or the pool does not parse and a link is missing |
| Links.ConfiguredExactly | tunneler/network_controller.go:213-234 | when the interfaces are done and before the routes, a target link is what the set-up makes of it exactly if it is new or was so before |
| Links.NewLinkRoutes | tunneler/network_controller.go:288-298 | a new link starts with the route to its peer for a router and with none for a member |
| Routes.RoutesForExact | tunneler/network_controller.go:351-366 | the wanted routes are all combinations of a valid prefix and a router with a valid address |
| Routes.NetOfExactly | tunneler/network_controller.go:352 | the network of a prefix has its mask and its least address |
| Routes.ExtraRoutesExact | tunneler/network_controller.go:112-143 | the optional routes are those to the prefixes of the first optional route of each extra network, through the pods listed under its name |
| Routes.DiffedIsCovered | tunneler/network_controller.go:375-458 | after the diff, routes not owned and wanted routes cover each other by gateway and mask size |
| Routes.ReachedExactly | tunneler/network_controller.go:443-446 | a wanted destination has its route exactly if it had it before or no other route passed for it |
| Routes.ReachedForever | tunneler/network_controller.go:375-458 | the same after any number of diffs: what the first does not reach is never reached |
| Routes.SameClassFate | tunneler/network_controller.go:443-458 | two wanted routes that differ only in the network address: if nothing passes for them both get their routes at once, else each keeps what it had, for ever |
| Routes.SecondPrefixUnreached | tunneler/network_controller.go:479-483 | once one of them has its route and the other has none, the other never gets one |
| Routes.AddMissing | tunneler/network_controller.go:443-458 | the second loop adds the missing routes; without a fault it fails exactly at a missing route that is in the list twice, after adding those before it |
| Routes.ReconcileLinkRoutes | tunneler/network_controller.go:333-458 | the two loops over one link produce that diff and change nothing else; without a fault they fail exactly if the link is gone or a missing route is in the list twice, and then more wanted routes are in place than before |
| RouteRuns.ReconcileRoutes | tunneler/network_controller.go:329-461 | without a fault it succeeds exactly if, with one copy of the routable routes for the first link and two for the others, every link is there and misses no route that is listed twice; then every link has the diff against one and the same set; a failure without a fault leaves fewer routes missing |
| RouteRuns.ManyCopies | tunneler/network_controller.go:349-367 | further copies of the routable routes decide nothing that two do not |
| RouteRuns.PassesExactly | tunneler/network_controller.go:349-458 | that condition says: the initial list is clean for every link, and no link of a member but the first needs a route |
| RouteRuns.EveryOrderPasses | tunneler/network_controller.go:332-459 | the inputs that succeed whatever link comes first |
| RouteRuns.SomeOrderPasses | tunneler/network_controller.go:332-459 | the inputs that succeed for some link coming first |
| RouteRuns.RetriesEnd | tunneler/network_controller.go:332-459 | fault-free failures in a row are at most as many as routes were missing |
| Sidecar.Reconcile | tunneler/network_controller.go:72-151 | success puts links and routes in place, new links with the wanted ends; links outside the network's prefix are never touched, and of existing target links only the routes; without a fault it succeeds exactly if there is no target link, or the pool parses and the routes of the links, new ones freshly set up, come through |
| SidecarRoutes.WantedRoutesExact | tunneler/network_controller.go:112-143 | together with the routable prefixes of a member, these are all the wanted routes |
| SidecarRoutes.PassIsRight | tunneler/network_controller.go:186-461 | after a successful pass every target link has the own route, from the pod's overlay address, with the mask of the pool for a member and 32 for a router; a route by mask and gateway for every wanted prefix and no other; the added ones lead exactly to the pool, the peer or the wanted prefix; a new link is up with its ports and its address with the mask of the pool |
| SidecarRoutes.ReachedPassIsRight | tunneler/network_controller.go:186-461 | on a status of a run own and peer address are the allocated ones |
| SidecarRoutes.GatewaysAreAllocated | tunneler/network_controller.go:122-141 | on a status of a run every wanted gateway is the overlay address of an allocated pod, inside the pool |
| Sidecar.WantedExactly | tunneler/network_controller.go:213-242 | after a successful pass a target link, apart from its routes, is as wanted exactly if it is new or was so before |
| Sidecar.StaleForever | tunneler/network_controller.go:213-216 | through any passes that want it, successful or not, a link keeps all but its routes: outdated ends stay, a link left down stays down |
| Sidecar.SidecarsMeet | tunneler/network_controller.go:72-151 | two sidecars that succeeded on one status of a run and had no link to each other now have the two ends of one tunnel between the allocated addresses, or neither has |
| Sidecar.SidecarsMeetLater | tunneler/network_controller.go:72-151 | the same when the two have read the network at different places of the run, with both pods allocated all the while and agreement on whether one of them is a router |
| Resolver.Ip2IntInjective | resolver/dns_controller.go:18-23 | ip2int tells 4-byte addresses apart |
| Resolver.IndexIsScan | resolver/dns_controller.go:79-85 | looking up the index is scanning for the last allocation with that pod address |
| Resolver.LastMatchExactly | resolver/dns_controller.go:79-85 | the scan finds the last entry with that pod address and a valid overlay address |
| Resolver.DNSReconciler.Reconcile | resolver/dns_controller.go:64-92 | one reconcile replaces, removes or keeps the cache of the network |
| Resolver.CacheFollowsLastRead | resolver/dns_controller.go:64-92 | after any sequence of reconciles the cache answers like a scan of the last status read |
| Resolver.AnswersExact | resolver/dns_controller.go:117-129 | the answers are exactly the indexed addresses of the resolved IPv4 addresses |
| Resolver.AnswersInOrder | resolver/dns_controller.go:117-129 | the answers come in the order of the resolved addresses |
| Resolver.DNSReconciler.ProcessDnsRequest | resolver/dns_controller.go:94-136 | the reply code and the answers for every form of name and every outcome of the lookup |
| Resolver.SplitInTwo | resolver/dns_controller.go:95-96 | a text has two parts exactly if it is two labels with one dot between them |
| Resolver.DNSReconciler.AskedExactly | resolver/dns_controller.go:95-101 | a name asks for a service of a network exactly if it is the two dot-free labels, with the zone behind them or without it |
| Resolver.AnswersAreAllocated | resolver/dns_controller.go:79-129 | for a status of a run, the index knows exactly the pod addresses of allocated pods and answers with their overlay addresses, inside the pool |
| Resolver.RepliesAreAllocated | resolver/dns_controller.go:64-136 | every answer to a name is an overlay address, inside the pool of the network it names, of an allocated pod that the service's name in the cluster resolves to; every such pod of a listed service is answered; a service that is not listed does not exist |
| Resolver.UnknownNames | resolver/dns_controller.go:95-106 | names of another form and of networks not there when last read do not exist |

## Left out

- IPv6: addresses and prefixes written with colons count as not parsable in status and spec; a pod's request is given by what `net.ParseIP` makes of it.
- Annotation text: the comma-separated lists of a pod are given already split, since network names contain no comma and no slash.
- Sidecar.Reconcile: the setup of the FOU receiver is only a call that may fail, because its kernel state is not modelled; a network that is not found leaves the links alone in the code, so that branch has no method.
- Links.SetupTunnelIface: the routes that the kernel adds on its own with an address are not modelled.
- Routes.ReconcileLinkRoutes: routes without a destination are not modelled, on which the code would dereference a nil pointer; a kernel that also refuses a route because another link has one to the same destination is one that fails.
- Names.TunnelNamesCoincide: says nothing about collisions of the 64-bit FNV hash, which are possible.
- Resolver.DNSReconciler.ProcessDnsRequest: record texts always parse; wire format, question checks and the unsynchronised access to the cache map are not modelled.
- Reconciler.Reconcile: a read from a cache finds or does not find the object; other errors of a read, after which the code returns the error, are not modelled.
- NetworkReconciler.Reconcile: the same for the read of a network.
- Validating.HandleExact: requests that do not decode are not modelled.
- Several operator processes at once, and caches that go back after a restart.
- `Shutdown`, the namespace controller, the pod webhook beyond the finalizer it adds, and all program entry points.
