/** One pass of the sidecar over one network: target links, interfaces, routes. */
module Sidecar {
  import opened Wrappers
  import opened Addresses
  import opened Api
  import opened Allocations
  import opened Ipam
  import opened Cluster
  import opened Invariant
  import opened Runs
  import opened Kernel
  import opened Names
  import opened Tunnels
  import opened Links
  import opened Routes
  import opened RouteRuns

  /** The optional routes of the local pod. */
  function LocalExtraRoutes(nw: Network, me: string): seq<RouteState> {
    var member := Find(nw.status.allocations, me);
    if member.None? then [] else ExtraRoutes(member.value.extraNetworks, nw.spec, nw.status)
  }

  /** The routes of one target link are as wanted. */
  ghost predicate RoutesInPlace(d: Device, info: LinkInfo, nw: Network, me: string) {
    var c := ParseCIDR(nw.spec.allocatableCIDR);
    var isRouter := IsRouter(nw.status, me);
    && c.Some?
    && Covered(d.routes, info, OwnedNet(info, NetOf(c.value), isRouter),
               WantedRoutes(nw.spec, nw.status, isRouter, LocalExtraRoutes(nw, me)))
  }

  /** Links and routes are as the status wants them. */
  ghost predicate InPlace(links: map<string, Device>, nw: Network, me: string, id: int) {
    var target := TargetLinks(nw.status, me, id);
    && Converged(links, Prefix(id), target)
    && forall n :: n in target ==> n in links && RoutesInPlace(links[n], target[n], nw, me)
  }

  /** A target link that was there keeps all but its routes; a new one is set up as wanted, up to its routes. */
  ghost predicate LinkKept(before: map<string, Device>, after: map<string, Device>, n: string, spec: Spec,
                           info: LinkInfo, isRouter: bool)
  {
    if n in before then RoutesOnly(before, after, n)
    else
      var c := ParseCIDR(spec.allocatableCIDR);
      && c.Some? && n in after
      && after[n] == Configured(info, spec.port, c.value.bits, isRouter).(routes := after[n].routes)
  }

  /** What a successful pass leaves. */
  ghost predicate Done(before: map<string, Device>, after: map<string, Device>, nw: Network, me: string, id: int) {
    var target := TargetLinks(nw.status, me, id);
    && InPlace(after, nw, me, id)
    && (forall n :: n in target ==> LinkKept(before, after, n, nw.spec, target[n], IsRouter(nw.status, me)))
    && forall n :: n in target ==> RoutesDone(before, after, n, target[n], nw, me)
  }

  /** The routes of the link are those of the diff against what was there, or what the set-up has made. */
  ghost predicate RoutesDone(before: map<string, Device>, after: map<string, Device>, n: string, info: LinkInfo,
                             nw: Network, me: string)
  {
    var c := ParseCIDR(nw.spec.allocatableCIDR);
    var isRouter := IsRouter(nw.status, me);
    && c.Some? && n in after
    && Diffed(if n in before then before[n].routes else Configured(info, nw.spec.port, c.value.bits, isRouter).routes,
              after[n].routes, info, OwnedNet(info, NetOf(c.value), isRouter),
              WantedRoutes(nw.spec, nw.status, isRouter, LocalExtraRoutes(nw, me)))
  }

  /** A pass that failed over its routes alone: the links are as wanted, and fewer routes are missing than before. */
  ghost predicate StoppedAtRoutes(before: map<string, Device>, after: map<string, Device>, nw: Network, me: string,
                                  id: int)
  {
    var target := TargetLinks(nw.status, me, id);
    var isRouter := IsRouter(nw.status, me);
    var c := ParseCIDR(nw.spec.allocatableCIDR);
    c.Some? && exists between ::
      && InterfacesDone(before, between, nw.spec, Prefix(id), target, isRouter)
      && OnlyTargetRoutes(between, after, target)
      && FewerUnrouted(between, after, target, NetOf(c.value), isRouter,
                       WantedRoutes(nw.spec, nw.status, isRouter, LocalExtraRoutes(nw, me)))
  }

  /** Of the target links that were there only the routes differ. */
  ghost predicate KeepsTargets(before: map<string, Device>, after: map<string, Device>, nw: Network, me: string,
                               id: int)
  {
    forall n :: n in TargetLinks(nw.status, me, id) && n in before ==> RoutesOnly(before, after, n)
  }

  /** The target links as the routes find them: those that were there, and the others freshly set up. */
  function Prepared(before: map<string, Device>, target: map<string, LinkInfo>, spec: Spec, isRouter: bool)
    : map<string, Device>
    requires ParseCIDR(spec.allocatableCIDR).Some?
  {
    map n | n in target ::
      if n in before then before[n]
      else Configured(target[n], spec.port, ParseCIDR(spec.allocatableCIDR).value.bits, isRouter)
  }

  /** The routes of all target links can be brought to their target when the given link comes first. */
  ghost predicate RoutesPass(before: map<string, Device>, nw: Network, me: string, id: int, first: string)
    requires ParseCIDR(nw.spec.allocatableCIDR).Some?
  {
    var target := TargetLinks(nw.status, me, id);
    var isRouter := IsRouter(nw.status, me);
    RunPasses(Prepared(before, target, nw.spec, isRouter), target, NetOf(ParseCIDR(nw.spec.allocatableCIDR).value),
              isRouter, LocalExtraRoutes(nw, me), RoutesFor(nw.spec.routableCIDRs, nw.status.routers), first)
  }

  lemma PreparedPasses(before: map<string, Device>, between: map<string, Device>, nw: Network, me: string, id: int,
                       first: string)
    requires ParseCIDR(nw.spec.allocatableCIDR).Some?
    requires InterfacesDone(before, between, nw.spec, Prefix(id), TargetLinks(nw.status, me, id),
                            IsRouter(nw.status, me))
    requires forall n :: n in TargetLinks(nw.status, me, id) ==> Prefix(id) <= n
    ensures RoutesPass(before, nw, me, id, first)
      <==> RunPasses(between, TargetLinks(nw.status, me, id), NetOf(ParseCIDR(nw.spec.allocatableCIDR).value),
                     IsRouter(nw.status, me), LocalExtraRoutes(nw, me),
                     RoutesFor(nw.spec.routableCIDRs, nw.status.routers), first)
  {
    hide TargetLinks, Prefix, ParseCIDR, NetOf, OwnedNet, LocalExtraRoutes, RoutesFor, Configured, IsRouter, Repeats,
      ListFor;
    var target := TargetLinks(nw.status, me, id);
    var prepared := Prepared(before, target, nw.spec, IsRouter(nw.status, me));
    assert forall n :: n in target ==> n in between && between[n] == prepared[n];
  }

  /** Apart from the links with the prefix, everything is as before. */
  ghost predicate OutsideSame(before: map<string, Device>, after: map<string, Device>, prefix: string) {
    forall n :: !(prefix <= n) ==> (n in before <==> n in after) && (n in after ==> after[n] == before[n])
  }

  lemma PassKeeps(before: map<string, Device>, between: map<string, Device>, after: map<string, Device>, nw: Network,
                  me: string, id: int)
    requires Isolated(before, between, Prefix(id), TargetLinks(nw.status, me, id))
    requires OnlyTargetRoutes(between, after, TargetLinks(nw.status, me, id))
    ensures OutsideSame(before, after, Prefix(id)) && KeepsTargets(before, after, nw, me, id)
  {
    hide TargetLinks, Prefix;
    TargetsPrefixed(nw.status, me, id);
  }

  lemma PassDone(before: map<string, Device>, between: map<string, Device>, after: map<string, Device>, nw: Network,
                 me: string, id: int)
    requires InterfacesDone(before, between, nw.spec, Prefix(id), TargetLinks(nw.status, me, id),
                            IsRouter(nw.status, me))
    requires OnlyTargetRoutes(between, after, TargetLinks(nw.status, me, id))
    requires TargetLinks(nw.status, me, id).Keys != {} ==> ParseCIDR(nw.spec.allocatableCIDR).Some?
    requires forall n :: n in TargetLinks(nw.status, me, id) ==>
      LinkDone(between, after, n, TargetLinks(nw.status, me, id)[n], NetOf(ParseCIDR(nw.spec.allocatableCIDR).value),
               IsRouter(nw.status, me),
               WantedRoutes(nw.spec, nw.status, IsRouter(nw.status, me), LocalExtraRoutes(nw, me)))
    ensures Done(before, after, nw, me, id)
  {
    hide TargetLinks, Prefix, ParseCIDR, NetOf, OwnedNet, Diffed, Covered, LocalExtraRoutes, WantedRoutes, Configured,
      ParseIPv4, IsRouter;
    TargetsPrefixed(nw.status, me, id);
    var target, isRouter := TargetLinks(nw.status, me, id), IsRouter(nw.status, me);
    forall m | m in target
      ensures m in after && RoutesInPlace(after[m], target[m], nw, me)
    {
      DiffedIsCovered(between[m].routes, after[m].routes, target[m],
                      OwnedNet(target[m], NetOf(ParseCIDR(nw.spec.allocatableCIDR).value), isRouter),
                      WantedRoutes(nw.spec, nw.status, isRouter, LocalExtraRoutes(nw, me)));
    }
  }

  lemma PassStopped(before: map<string, Device>, between: map<string, Device>, after: map<string, Device>, nw: Network,
                    me: string, id: int)
    requires InterfacesDone(before, between, nw.spec, Prefix(id), TargetLinks(nw.status, me, id),
                            IsRouter(nw.status, me))
    requires OnlyTargetRoutes(between, after, TargetLinks(nw.status, me, id))
    requires var c := ParseCIDR(nw.spec.allocatableCIDR);
      && c.Some?
      && (|| !(TargetLinks(nw.status, me, id).Keys <= between.Keys)
          || FewerUnrouted(between, after, TargetLinks(nw.status, me, id), NetOf(c.value), IsRouter(nw.status, me),
                           WantedRoutes(nw.spec, nw.status, IsRouter(nw.status, me), LocalExtraRoutes(nw, me))))
    ensures StoppedAtRoutes(before, after, nw, me, id)
  {
    hide TargetLinks, Prefix, ParseCIDR, NetOf, LocalExtraRoutes, WantedRoutes, FewerUnrouted, IsRouter, SetUpSoFar;
    TargetsPrefixed(nw.status, me, id);
  }

  lemma SameRoutes(links: map<string, Device>, target: map<string, LinkInfo>)
    ensures OnlyTargetRoutes(links, links, target)
  {
  }

  /**
   Reconcile of the sidecar for a network it has read. Links of other networks and other programs
   are never touched, and of target links that exist only the routes; on success links and routes
   are in place. Without a fault it fails exactly if there is a target link and the pool does not
   parse or the growing list of routes gets in the way; then fewer routes are missing than before.
   */
  method Reconcile(kernel: Netlink, ids: NetworkIds, me: string, n: string, nw: Network)
    returns (ok: bool, ghost first: Option<string>)
    requires ids.Valid()
    modifies kernel, ids
    ensures ids.Valid() && n in ids.networkToName
    ensures OutsideSame(old(kernel.links), kernel.links, Prefix(ids.networkToName[n]))
    ensures KeepsTargets(old(kernel.links), kernel.links, nw, me, ids.networkToName[n])
    ensures kernel.faults >= old(kernel.faults)
    ensures first.Some? ==>
      ParseCIDR(nw.spec.allocatableCIDR).Some? && first.value in TargetLinks(nw.status, me, ids.networkToName[n])
    ensures ok <==>
      && kernel.faults == old(kernel.faults)
      && (TargetLinks(nw.status, me, ids.networkToName[n]).Keys == {}
          || (first.Some? && RoutesPass(old(kernel.links), nw, me, ids.networkToName[n], first.value)))
    ensures kernel.faults == old(kernel.faults) && TargetLinks(nw.status, me, ids.networkToName[n]).Keys != {} ==>
      (first.Some? <==> ParseCIDR(nw.spec.allocatableCIDR).Some?)
    ensures ok ==> Done(old(kernel.links), kernel.links, nw, me, ids.networkToName[n])
    ensures !ok && kernel.faults == old(kernel.faults) ==>
      || ParseCIDR(nw.spec.allocatableCIDR).None?
      || StoppedAtRoutes(old(kernel.links), kernel.links, nw, me, ids.networkToName[n])
  {
    hide TargetLinks, Prefix, ParseCIDR, NetOf, LocalExtraRoutes, WantedRoutes, Numbered, FewerUnrouted, RunPasses,
      RoutesPass, RoutesFor, LinkDone, Done, KeepsTargets, OutsideSame, Isolated, InterfacesDone, OnlyTargetRoutes,
      FreshTarget, StoppedAtRoutes, IsRouter, Converged;
    ghost var before := kernel.links;
    first := None;
    var id := ids.GetNetworkId(n);
    var target := TargetLinks(nw.status, me, id);
    TargetsPrefixed(nw.status, me, id);
    TargetsUnprocessed(nw.status, me, id);
    TargetFresh(target, Prefix(id));
    var isRouter := IsRouter(nw.status, me);
    ok := kernel.ReconcileFou();
    SameRoutes(before, target);
    AllIsolated(before, Prefix(id), target);
    PassKeeps(before, before, before, nw, me, id);
    if !ok { return; }
    ok := ReconcileInterfaces(kernel, nw.spec, Prefix(id), target, isRouter);
    SameRoutes(kernel.links, target);
    PassKeeps(before, kernel.links, kernel.links, nw, me, id);
    if !ok { return; }
    ghost var between := kernel.links;
    ok, first := ReconcileRoutes(kernel, nw.spec, nw.status, target, isRouter, LocalExtraRoutes(nw, me));
    PassKeeps(before, between, kernel.links, nw, me, id);
    if first.Some? { PreparedPasses(before, between, nw, me, id, first.value); }
    if ok {
      PassDone(before, between, kernel.links, nw, me, id);
    } else if kernel.faults == old(kernel.faults) && ParseCIDR(nw.spec.allocatableCIDR).Some? {
      PassStopped(before, between, kernel.links, nw, me, id);
    }
  }

  lemma TargetFresh(target: map<string, LinkInfo>, prefix: string)
    requires forall n :: n in target ==> prefix <= n
    requires forall n :: n in target ==> !target[n].processed
    ensures FreshTarget(target, prefix)
  {
  }

  lemma AllIsolated(links: map<string, Device>, prefix: string, target: map<string, LinkInfo>)
    ensures Isolated(links, links, prefix, target)
  {
  }

  // ---------- links that are kept ----------

  /** Apart from its routes the link is as wanted: ends, ports, state and address. */
  ghost predicate AsWanted(d: Device, info: LinkInfo, spec: Spec, isRouter: bool) {
    var c := ParseCIDR(spec.allocatableCIDR);
    c.Some? && d.(routes := {}) == Configured(info, spec.port, c.value.bits, isRouter).(routes := {})
  }

  /** After a successful pass a target link is as wanted exactly if it is new or was as wanted before. */
  lemma WantedExactly(before: map<string, Device>, after: map<string, Device>, nw: Network, me: string, id: int,
                      n: string)
    requires Done(before, after, nw, me, id) && n in TargetLinks(nw.status, me, id)
    ensures n in after
    ensures var info, isRouter := TargetLinks(nw.status, me, id)[n], IsRouter(nw.status, me);
      AsWanted(after[n], info, nw.spec, isRouter) <==> n !in before || AsWanted(before[n], info, nw.spec, isRouter)
  {
    hide TargetLinks, Prefix, RoutesInPlace, ParseCIDR, Configured;
  }

  /**
   Through any passes, successful or not, over whatever statuses, a link that each of them wants
   keeps all but its routes: outdated ends stay outdated, and a link left down stays down.
   */
  lemma {:induction false} StaleForever(history: seq<map<string, Device>>, read: seq<Network>, k: nat, me: string,
                                        id: int, n: string, info: LinkInfo, spec: Spec, isRouter: bool)
    requires k < |history| == |read| + 1 && n in history[0]
    requires forall i :: 0 <= i < |read| ==> KeepsTargets(history[i], history[i + 1], read[i], me, id)
    requires forall i :: 0 <= i < |read| ==> n in TargetLinks(read[i].status, me, id)
    ensures n in history[k] && history[k][n] == history[0][n].(routes := history[k][n].routes)
    ensures history[k][n].up <==> history[0][n].up
    ensures AsWanted(history[k][n], info, spec, isRouter) <==> AsWanted(history[0][n], info, spec, isRouter)
  {
    hide TargetLinks, ParseCIDR, Configured;
    if k > 0 {
      StaleForever(history, read, k - 1, me, id, n, info, spec, isRouter);
      assert KeepsTargets(history[k - 1], history[k - 1 + 1], read[k - 1], me, id);
    }
  }

  /** What a failed set-up leaves is as wanted only if nothing but the route of a router is missing. */
  lemma UnfinishedWanted(d: Device, info: LinkInfo, spec: Spec, isRouter: bool)
    requires Unfinished(d, spec, info, isRouter)
    ensures AsWanted(d, info, spec, isRouter) <==>
      d.up && d.addresses != [] && ParseCIDR(spec.allocatableCIDR).Some?
  {
    hide ParseIPv4, ParseCIDR;
  }

  // ---------- two sidecars ----------

  /** Two devices are the ends of one tunnel between two allocated pods. */
  ghost predicate Ends(d: Device, e: Device, a: Allocation, b: Allocation) {
    && d.up && e.up && d.port == e.port
    && d.localIP == e.remoteIP == ParseIPv4(a.podIP) && d.remoteIP == e.localIP == ParseIPv4(b.podIP)
    && |d.addresses| == |e.addresses| == 1
    && d.addresses[0].ip == ParseIPv4(a.ip) && e.addresses[0].ip == ParseIPv4(b.ip)
  }

  /** The end of a tunnel: the device between these addresses, with this port. */
  ghost predicate End(d: Device, port: int, local: string, remote: string, overlay: string) {
    && d.up && d.port == port % 0x1_0000 && d.localIP == ParseIPv4(local) && d.remoteIP == ParseIPv4(remote)
    && |d.addresses| == 1 && d.addresses[0].ip == ParseIPv4(overlay)
  }

  /** After a successful pass the link to a pod is there exactly if it is wanted, as the end of its tunnel if new. */
  lemma OneEnd(before: map<string, Device>, after: map<string, Device>, nw: Network, me: string, id: int, q: string)
    requires Done(before, after, nw, me, id) && TunnelName(id, q) !in before
    ensures var n, target := TunnelName(id, q), TargetLinks(nw.status, me, id);
      && (n in after <==> n in target)
      && (n in target ==>
            End(after[n], nw.spec.port, target[n].localIP, target[n].remoteIP, target[n].inTunnelLocalIP))
  {
    hide TunnelName, TargetLinks, ParseIPv4, ParseCIDR, RoutesInPlace, RoutesDone, Prefix, IsRouter;
    OwnPrefix(id, q);
    var target := TargetLinks(nw.status, me, id);
    if TunnelName(id, q) in target {
      assert LinkKept(before, after, TunnelName(id, q), nw.spec, target[TunnelName(id, q)], IsRouter(nw.status, me));
    }
  }

  /**
   Two sidecars that have succeeded on the same status of a run, starting without a link to each
   other, either both have that link now or neither has; if they do, the links are the two ends
   of one tunnel between the allocated addresses.
   */
  lemma SidecarsMeet(states: seq<State>, events: seq<Event>, k: nat, n: string, p: string, q: string, i: int, j: int,
                     beforeP: map<string, Device>, afterP: map<string, Device>,
                     beforeQ: map<string, Device>, afterQ: map<string, Device>)
    requires Run(states, events) && k < |states| && n in Latest(states, k).networks
    requires var st := Latest(states, k).networks[n].status; p != q && HashIsOwn(st, p) && HashIsOwn(st, q)
    requires Done(beforeP, afterP, Latest(states, k).networks[n], p, i) && TunnelName(i, q) !in beforeP
    requires Done(beforeQ, afterQ, Latest(states, k).networks[n], q, j) && TunnelName(j, p) !in beforeQ
    ensures var st := Latest(states, k).networks[n].status;
      && (TunnelName(i, q) in afterP <==> TunnelName(j, p) in afterQ)
      && (TunnelName(i, q) in afterP
          <==> IsAllocated(st, p) && IsAllocated(st, q) && (IsRouter(st, p) || IsRouter(st, q)))
      && (TunnelName(i, q) in afterP ==>
            Ends(afterP[TunnelName(i, q)], afterQ[TunnelName(j, p)],
                 Find(st.allocations, p).value, Find(st.allocations, q).value))
  {
    hide Run, TunnelName, TargetLinks, ParseIPv4, HashIsOwn, Consistent, Done, Fnv, IsAllocated, IsRouter;
    var nw := Latest(states, k).networks[n];
    ReachedConsistent(states, events, k, n);
    LinkedExactly(nw.status, p, q, i);
    LinkedExactly(nw.status, q, p, j);
    OneEnd(beforeP, afterP, nw, p, i, q);
    OneEnd(beforeQ, afterQ, nw, q, j, p);
  }

  /** The pod has been allocated in the same network object at all places from k to m. */
  ghost predicate AllocatedThroughout(states: seq<State>, k: nat, m: nat, n: string, p: string)
    requires k <= m < |states|
  {
    forall i :: k <= i <= m ==> SameObject(states, k, i, n) && AllocatedIn(Latest(states, i), n, p)
  }

  /**
   The sidecars may have read the network at different places of the run: if both pods were
   allocated all the while, and by both statuses one of the two is a router, or by both none is,
   both have the link or neither has, and the links are the two ends of one tunnel.
   */
  lemma SidecarsMeetLater(states: seq<State>, events: seq<Event>, k: nat, m: nat, n: string, p: string, q: string,
                          i: int, j: int, beforeP: map<string, Device>, afterP: map<string, Device>,
                          beforeQ: map<string, Device>, afterQ: map<string, Device>)
    requires Run(states, events) && k <= m < |states|
    requires AllocatedThroughout(states, k, m, n, p) && AllocatedThroughout(states, k, m, n, q)
    requires SameObject(states, k, m, n)
    requires var st, st' := Latest(states, k).networks[n].status, Latest(states, m).networks[n].status;
      && p != q && HashIsOwn(st, q) && HashIsOwn(st', p)
      && ((IsRouter(st, p) || IsRouter(st, q)) <==> (IsRouter(st', p) || IsRouter(st', q)))
    requires Done(beforeP, afterP, Latest(states, k).networks[n], p, i) && TunnelName(i, q) !in beforeP
    requires Done(beforeQ, afterQ, Latest(states, m).networks[n], q, j) && TunnelName(j, p) !in beforeQ
    ensures var st := Latest(states, k).networks[n].status;
      && (TunnelName(i, q) in afterP <==> TunnelName(j, p) in afterQ)
      && (TunnelName(i, q) in afterP <==> IsRouter(st, p) || IsRouter(st, q))
      && (TunnelName(i, q) in afterP ==>
            IsAllocated(st, p) && IsAllocated(st, q)
            && Ends(afterP[TunnelName(i, q)], afterQ[TunnelName(j, p)],
                    Find(st.allocations, p).value, Find(st.allocations, q).value))
  {
    hide Run, TunnelName, TargetLinks, ParseIPv4, HashIsOwn, Consistent, Done, Fnv, IsRouter, Find;
    var nw, nw' := Latest(states, k).networks[n], Latest(states, m).networks[n];
    ReachedConsistent(states, events, k, n);
    ReachedConsistent(states, events, m, n);
    PoolNeverChanges(states, events, k, m, n);
    AddressesAreSticky(states, events, k, m, n, p);
    AddressesAreSticky(states, events, k, m, n, q);
    LinkedExactly(nw.status, p, q, i);
    LinkedExactly(nw'.status, q, p, j);
    OneEnd(beforeP, afterP, nw, p, i, q);
    OneEnd(beforeQ, afterQ, nw', q, j, p);
  }

  lemma OwnPrefix(id: int, p: string)
    ensures Prefix(id) <= TunnelName(id, p)
  {
    PrefixSelects(id, id, p);
  }

  lemma {:induction false} LinksToUnprocessed(items: seq<Allocation>, local: Allocation, id: int)
    ensures forall n :: n in LinksTo(items, local, id) ==> !LinksTo(items, local, id)[n].processed
  {
    hide TunnelName;
    if items != [] { LinksToUnprocessed(items[..|items| - 1], local, id); }
  }

  lemma TargetsUnprocessed(st: Status, me: string, id: int)
    ensures forall n :: n in TargetLinks(st, me, id) ==> !TargetLinks(st, me, id)[n].processed
  {
    hide LinksTo;
    var member, router := Find(st.allocations, me), Find(st.routers, me);
    if router.Some? {
      LinksToUnprocessed(Without(st.allocations, me), router.value, id);
    } else if member.Some? {
      LinksToUnprocessed(st.routers, member.value, id);
    }
  }
}
